/** The mutating handlers of Routes/posts.routes.js: createPost,
    updatePost/:id, :id/like, :id/unlike and delete/:id. The post collection
    is an object whose documents the handlers look up, change in place and
    save or delete; the caller is the id the authentication middleware put in
    `req.user`, and the image uploader is the function parameter `upload`. */
module Posts {
  import opened Common
  import opened Models
  import PostViews

  const EDIT_FORBIDDEN_MESSAGE: string := "Unauthorized to edit this post"
  const DELETE_FORBIDDEN_MESSAGE: string := "Unauthorized to delete this post"
  const ALREADY_LIKED_MESSAGE: string := "You already liked this post"
  const NOT_LIKED_MESSAGE: string := "You haven't liked this post"
  const POST_DELETED_MESSAGE: string := "Post deleted successfully"
  const UPLOAD_FAILED_MESSAGE: string := "Failed to upload image"

  // ---------------------------------------------------------------------------
  // The likes list

  /** `post.likes.filter(id => id !== caller)`: the likers other than `u`,
      each kept as often as before. */
  function WithoutLiker(likes: seq<Id>, u: Id): (r: seq<Id>)
    ensures u !in r
    ensures forall v :: v != u ==> multiset(r)[v] == multiset(likes)[v]
  {
    Filter(likes, (v: Id) => v != u)
  }

  /** The other likers keep their order: removing distributes over concatenation. */
  lemma WithoutLikerKeepsOrder(a: seq<Id>, b: seq<Id>, u: Id)
    ensures WithoutLiker(a + b, u) == WithoutLiker(a, u) + WithoutLiker(b, u)
  {
    FilterConcat(a, b, (v: Id) => v != u);
  }

  /** A duplicate-free likes list that holds `u` shrinks by exactly one. */
  lemma {:induction false} WithoutLikerShrinksByOne(likes: seq<Id>, u: Id)
    requires NoDuplicates(likes) && u in likes
    ensures |WithoutLiker(likes, u)| == |likes| - 1
  {
    assert likes == [likes[0]] + likes[1..];
    if likes[0] == u {
      assert u !in likes[1..];
      FilterKeepsAll(likes[1..], (v: Id) => v != u);
    } else {
      WithoutLikerShrinksByOne(likes[1..], u);
    }
  }

  /** Removing a liker keeps a likes list duplicate-free. */
  lemma WithoutLikerKeepsNoDuplicates(likes: seq<Id>, u: Id)
    requires NoDuplicates(likes)
    ensures NoDuplicates(WithoutLiker(likes, u))
  {
    FilterKeepsNoDuplicates(likes, (v: Id) => v != u);
  }

  /** Appending a new liker keeps a likes list duplicate-free. */
  lemma LikeKeepsNoDuplicates(likes: seq<Id>, u: Id)
    requires NoDuplicates(likes) && u !in likes
    ensures NoDuplicates(likes + [u])
  {
  }

  /** Unliking right after liking restores the likes list. */
  lemma UnlikeUndoesLike(likes: seq<Id>, u: Id)
    requires u !in likes
    ensures WithoutLiker(likes + [u], u) == likes
  {
    WithoutLikerKeepsOrder(likes, [u], u);
    FilterKeepsAll(likes, (v: Id) => v != u);
    assert WithoutLiker([u], u) == [];
  }

  // ---------------------------------------------------------------------------
  // Editing a post

  /** The post after `if (title) post.title = title`, the same for the
      description, and `post.image = imageUrl` when a file was uploaded. */
  function EditPost(p: Post, title: Option<string>, description: Option<string>, newImage: Option<string>): (r: Post)
    ensures r.id == p.id && r.authorId == p.authorId && r.likes == p.likes
    ensures r.comments == p.comments && r.createdAt == p.createdAt
    ensures r.title == (if Truthy(title) then title else p.title)
    ensures r.description == (if Truthy(description) then description else p.description)
    ensures r.image == (if newImage.Some? then newImage else p.image)
  {
    p.(title := if Truthy(title) then title else p.title,
       description := if Truthy(description) then description else p.description,
       image := if newImage.Some? then newImage else p.image)
  }

  /** createPost's 400 answer to a failed upload: `err.message || "Failed to
      upload image"` (updatePost answers the bare message). */
  function UploadFailure(message: string): (o: Outcome<Post>)
    ensures o.Failure? && o.code == BAD_REQUEST
    ensures o.message == (if message != "" then message else UPLOAD_FAILED_MESSAGE)
  {
    Failure(BAD_REQUEST, if message != "" then message else UPLOAD_FAILED_MESSAGE)
  }

  predicate UploadFails(file: Option<ImageFile>, upload: ImageFile -> UploadResult)
  {
    file.Some? && upload(file.value).UploadFailed?
  }

  /** The image URL a request stores: the uploader's URL for the file, if any. */
  function UploadedImage(file: Option<ImageFile>, upload: ImageFile -> UploadResult): (r: Option<string>)
    requires !UploadFails(file, upload)
    ensures r.Some? <==> file.Some?
    ensures r.Some? ==> upload(file.value) == Uploaded(r.value)
  {
    if file.Some? then Some(upload(file.value).url) else None
  }

  /** A post stored by createPost is what singlePost finds under its id,
      image URL included. */
  lemma CreatedPostIsFound(docs: seq<Post>, p: Post, comments: seq<Comment>, users: seq<User>)
    requires forall j :: 0 <= j < |docs| ==> docs[j].id != p.id
    ensures PostViews.SinglePost(p.id, docs + [p], comments, users).Success?
    ensures PostViews.SinglePost(p.id, docs + [p], comments, users).value.post == p
  {
    var s := docs + [p];
    assert s[|docs|] == p;
    assert PostIndex(s, p.id) == Some(|docs|);
  }

  // ---------------------------------------------------------------------------
  // The collection

  class PostCollection {
    /** The stored posts, in insertion order. */
    var docs: seq<Post>
    /** The id the next created post receives. */
    var nextId: Id

    /** Ids are distinct and below the counter, every likes list is
        duplicate-free, and no handler ever fills a post's `comments` list. */
    ghost predicate Valid()
      reads this
    {
      && (forall i :: 0 <= i < |docs| ==> docs[i].id < nextId)
      && (forall i, j :: 0 <= i < j < |docs| ==> docs[i].id != docs[j].id)
      && (forall i :: 0 <= i < |docs| ==> NoDuplicates(docs[i].likes))
      && (forall i :: 0 <= i < |docs| ==> docs[i].comments == [])
    }

    constructor ()
      ensures Valid() && docs == [] && nextId == 0
    {
      docs := [];
      nextId := 0;
    }

    /** createPost: the upload runs first and its failure stores nothing;
        otherwise exactly one post is added, owned by the caller, with the
        given texts and the uploaded URL as image when a file was sent. */
    method CreatePost(caller: Id, title: Option<string>, description: Option<string>,
                      file: Option<ImageFile>, upload: ImageFile -> UploadResult, now: nat)
      returns (o: Outcome<Post>)
      requires Valid()
      modifies this
      ensures Valid()
      ensures UploadFails(file, upload) ==>
                o == UploadFailure(upload(file.value).message)
                && docs == old(docs) && nextId == old(nextId)
      ensures !UploadFails(file, upload) ==>
                && o == Success(CREATED, NewPost(old(nextId), title, description,
                                                 UploadedImage(file, upload), caller, now))
                && docs == old(docs) + [o.value]
                && nextId == old(nextId) + 1
    {
      var imageUrl: Option<string> := None;
      if file.Some? {
        var uploaded := upload(file.value);
        if uploaded.UploadFailed? {
          return UploadFailure(uploaded.message);
        }
        imageUrl := Some(uploaded.url);
      }
      var post := NewPost(nextId, title, description, imageUrl, caller, now);
      docs := docs + [post];
      nextId := nextId + 1;
      o := Success(CREATED, post);
    }

    /** updatePost/:id: 404 for an unknown post, 403 for a caller who is not
        its author, 400 with the uploader's own message when the upload
        fails, each leaving the collection as it was; otherwise only that
        post changes, as EditPost says. */
    method UpdatePost(caller: Id, postId: Id, title: Option<string>, description: Option<string>,
                      file: Option<ImageFile>, upload: ImageFile -> UploadResult)
      returns (o: Outcome<Post>)
      requires Valid()
      modifies this
      ensures Valid() && nextId == old(nextId)
      ensures o.Failure? ==> docs == old(docs)
      ensures PostIndex(old(docs), postId).None? <==> o == Failure(NOT_FOUND, PostViews.POST_NOT_FOUND_MESSAGE)
      ensures var i := PostIndex(old(docs), postId);
              i.Some? ==>
                && (old(docs)[i.value].authorId != caller <==> o == Failure(FORBIDDEN, EDIT_FORBIDDEN_MESSAGE))
                && (old(docs)[i.value].authorId == caller && UploadFails(file, upload) ==>
                      o == Failure(BAD_REQUEST, upload(file.value).message))
                && (old(docs)[i.value].authorId == caller && !UploadFails(file, upload) ==>
                      && o == Success(OK, EditPost(old(docs)[i.value], title, description,
                                                   UploadedImage(file, upload)))
                      && docs == old(docs)[i.value := o.value])
    {
      var idx := PostIndex(docs, postId);
      if idx.None? {
        return Failure(NOT_FOUND, PostViews.POST_NOT_FOUND_MESSAGE);
      }
      var i := idx.value;
      var post := docs[i];
      if post.authorId != caller {
        return Failure(FORBIDDEN, EDIT_FORBIDDEN_MESSAGE);
      }
      if Truthy(title) {
        post := post.(title := title);
      }
      if Truthy(description) {
        post := post.(description := description);
      }
      if file.Some? {
        var uploaded := upload(file.value);
        if uploaded.UploadFailed? {
          return Failure(BAD_REQUEST, uploaded.message);
        }
        post := post.(image := Some(uploaded.url));
      }
      docs := docs[i := post];
      o := Success(OK, post);
    }

    /** :id/like: 404 for an unknown post, 400 when the caller already likes
        it, both leaving the collection as it was; otherwise the caller is
        appended to that post's likes and nothing else changes. */
    method Like(caller: Id, postId: Id) returns (o: Outcome<Post>)
      requires Valid()
      modifies this
      ensures Valid() && nextId == old(nextId)
      ensures o.Failure? ==> docs == old(docs)
      ensures PostIndex(old(docs), postId).None? <==> o == Failure(NOT_FOUND, PostViews.POST_NOT_FOUND_MESSAGE)
      ensures var i := PostIndex(old(docs), postId);
              i.Some? ==>
                && (caller in old(docs)[i.value].likes <==> o == Failure(BAD_REQUEST, ALREADY_LIKED_MESSAGE))
                && (caller !in old(docs)[i.value].likes ==>
                      && o == Success(OK, old(docs)[i.value].(likes := old(docs)[i.value].likes + [caller]))
                      && docs == old(docs)[i.value := o.value])
    {
      var idx := PostIndex(docs, postId);
      if idx.None? {
        return Failure(NOT_FOUND, PostViews.POST_NOT_FOUND_MESSAGE);
      }
      var i := idx.value;
      var post := docs[i];
      if caller in post.likes {
        return Failure(BAD_REQUEST, ALREADY_LIKED_MESSAGE);
      }
      LikeKeepsNoDuplicates(post.likes, caller);
      post := post.(likes := post.likes + [caller]);
      docs := docs[i := post];
      o := Success(OK, post);
    }

    /** :id/unlike: 404 for an unknown post, 400 when the caller does not
        like it, both leaving the collection as it was; otherwise every
        occurrence of the caller leaves that post's likes, which shrink by one. */
    method Unlike(caller: Id, postId: Id) returns (o: Outcome<Post>)
      requires Valid()
      modifies this
      ensures Valid() && nextId == old(nextId)
      ensures o.Failure? ==> docs == old(docs)
      ensures PostIndex(old(docs), postId).None? <==> o == Failure(NOT_FOUND, PostViews.POST_NOT_FOUND_MESSAGE)
      ensures var i := PostIndex(old(docs), postId);
              i.Some? ==>
                && (caller !in old(docs)[i.value].likes <==> o == Failure(BAD_REQUEST, NOT_LIKED_MESSAGE))
                && (caller in old(docs)[i.value].likes ==>
                      && o == Success(OK, old(docs)[i.value].(likes := WithoutLiker(old(docs)[i.value].likes, caller)))
                      && |o.value.likes| == |old(docs)[i.value].likes| - 1
                      && docs == old(docs)[i.value := o.value])
    {
      var idx := PostIndex(docs, postId);
      if idx.None? {
        return Failure(NOT_FOUND, PostViews.POST_NOT_FOUND_MESSAGE);
      }
      var i := idx.value;
      var post := docs[i];
      if caller !in post.likes {
        return Failure(BAD_REQUEST, NOT_LIKED_MESSAGE);
      }
      WithoutLikerShrinksByOne(post.likes, caller);
      WithoutLikerKeepsNoDuplicates(post.likes, caller);
      post := post.(likes := WithoutLiker(post.likes, caller));
      docs := docs[i := post];
      o := Success(OK, post);
    }

    /** delete/:id: 404 then 403 as for updatePost, leaving the collection as
        it was; otherwise exactly that post is removed. The comments on it
        are another collection and stay. */
    method DeletePost(caller: Id, postId: Id) returns (o: Outcome<string>)
      requires Valid()
      modifies this
      ensures Valid() && nextId == old(nextId)
      ensures o.Failure? ==> docs == old(docs)
      ensures PostIndex(old(docs), postId).None? <==> o == Failure(NOT_FOUND, PostViews.POST_NOT_FOUND_MESSAGE)
      ensures var i := PostIndex(old(docs), postId);
              i.Some? ==>
                && (old(docs)[i.value].authorId != caller <==> o == Failure(FORBIDDEN, DELETE_FORBIDDEN_MESSAGE))
                && (old(docs)[i.value].authorId == caller ==>
                      o == Success(OK, POST_DELETED_MESSAGE) && docs == RemoveAt(old(docs), i.value))
    {
      var idx := PostIndex(docs, postId);
      if idx.None? {
        return Failure(NOT_FOUND, PostViews.POST_NOT_FOUND_MESSAGE);
      }
      var i := idx.value;
      if docs[i].authorId != caller {
        return Failure(FORBIDDEN, DELETE_FORBIDDEN_MESSAGE);
      }
      docs := RemoveAt(docs, i);
      o := Success(OK, POST_DELETED_MESSAGE);
    }
  }
}
