/** Routes/comments.routes.js: adding a comment to a post and deleting a
    comment, over the comment collection. */
module Comments {
  import opened Common
  import opened Models
  import opened Ordering
  import PostViews

  const COMMENT_NOT_FOUND_MESSAGE: string := "Comment not found"
  const COMMENT_DELETED_MESSAGE: string := "Comment deleted"

  /** This file's own `attachComments`: the post with its comments, newest
      first, each author populated with the username only. */
  function AttachUsernames(post: Post, comments: seq<Comment>, users: seq<User>): (v: PostViews.PostView)
    ensures v.post == post
    ensures PostViews.CommentsOf(v) == PostViews.PostComments(post.id, comments)
    ensures NewestFirst(PostViews.CommentsOf(v), PostViews.CommentTime)
    ensures forall i :: 0 <= i < |v.comments| ==>
              v.comments[i].user == PostViews.Author(users, v.comments[i].comment.userId, false)
    ensures forall i :: 0 <= i < |v.comments| ==>
              && v.comments[i].comment.postId == post.id
              && (v.comments[i].user.Some? <==> UserIndex(users, v.comments[i].comment.userId).Some?)
              && (v.comments[i].user.Some? ==> v.comments[i].user.value.profilePicture.None?)
  {
    var v := PostViews.Attach(post, comments, users, false);
    forall i | 0 <= i < |v.comments|
      ensures v.comments[i].comment.postId == post.id
    {
      assert v.comments[i].comment in PostViews.CommentsOf(v);
    }
    v
  }

  /** A comment added to a post is among that post's attached comments. */
  lemma AddedCommentIsListed(comments: seq<Comment>, c: Comment)
    ensures c in PostViews.PostComments(c.postId, comments + [c])
  {
    assert c in comments + [c];
  }

  /** A deleted comment is no longer attached to any post, provided comment
      ids are distinct. */
  lemma DeletedCommentIsGone(comments: seq<Comment>, i: nat, postId: Id)
    requires i < |comments|
    requires forall a, b :: 0 <= a < b < |comments| ==> comments[a].id != comments[b].id
    ensures comments[i] !in PostViews.PostComments(postId, RemoveAt(comments, i))
  {
    var rest := RemoveAt(comments, i);
    forall k | 0 <= k < |rest| ensures rest[k].id != comments[i].id {
      if k < i {
        assert rest[k] == comments[k];
      } else {
        assert rest[k] == comments[k + 1];
      }
    }
  }

  class CommentCollection {
    /** The stored comments, in insertion order. */
    var docs: seq<Comment>
    /** The id the next comment receives. */
    var nextId: Id

    /** Ids are distinct and below the counter. */
    ghost predicate Valid()
      reads this
    {
      && (forall i :: 0 <= i < |docs| ==> docs[i].id < nextId)
      && (forall i, j :: 0 <= i < j < |docs| ==> docs[i].id != docs[j].id)
    }

    constructor ()
      ensures Valid() && docs == [] && nextId == 0
    {
      docs := [];
      nextId := 0;
    }

    /** add/:postId: stores one comment by the caller on the named post
        (whether or not that post exists) and answers it with the author's
        username and picture populated. */
    method AddComment(caller: Id, postId: Id, text: Option<string>, users: seq<User>, now: nat)
      returns (o: Outcome<PostViews.CommentView>)
      requires Valid()
      modifies this
      ensures Valid() && nextId == old(nextId) + 1
      ensures var c := Comment(old(nextId), text, caller, postId, now);
              && docs == old(docs) + [c]
              && o == Success(OK, PostViews.CommentView(c, PostViews.Author(users, caller, true)))
    {
      var c := Comment(nextId, text, caller, postId, now);
      docs := docs + [c];
      nextId := nextId + 1;
      o := Success(OK, PostViews.CommentView(c, PostViews.Author(users, caller, true)));
    }

    /** delete/:id: 404 with nothing changed when no comment has the id;
        otherwise exactly that comment is removed. Any authenticated caller
        may delete any comment. */
    method DeleteComment(id: Id) returns (o: Outcome<string>)
      requires Valid()
      modifies this
      ensures Valid() && nextId == old(nextId)
      ensures CommentIndex(old(docs), id).None? ==>
                o == Failure(NOT_FOUND, COMMENT_NOT_FOUND_MESSAGE) && docs == old(docs)
      ensures CommentIndex(old(docs), id).Some? ==>
                o == Success(OK, COMMENT_DELETED_MESSAGE)
                && docs == RemoveAt(old(docs), CommentIndex(old(docs), id).value)
      ensures forall j :: 0 <= j < |docs| ==> docs[j].id != id
    {
      var idx := CommentIndex(docs, id);
      if idx.None? {
        return Failure(NOT_FOUND, COMMENT_NOT_FOUND_MESSAGE);
      }
      var i := idx.value;
      var before := docs;
      docs := RemoveAt(docs, i);
      forall j | 0 <= j < |docs| ensures docs[j].id != id {
        if j < i {
          assert docs[j] == before[j];
        } else {
          assert docs[j] == before[j + 1];
        }
      }
      o := Success(OK, COMMENT_DELETED_MESSAGE);
    }
  }
}
