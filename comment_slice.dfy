/** The `comment` slice as the store holds it: fields that the reducers update in place, and
    the thunks, each given the outcome of its requests. Every method is proved to perform
    exactly the transition of module CommentSliceSpec and to keep the per-post maps aligned. */
module CommentSlice {
  import opened Api
  import opened IdLists
  import opened Values
  import Spec = CommentSliceSpec

  class CommentStore {
    var isLoading: bool
    var error: Option<string>
    var commentsById: map<Id, Doc>
    var commentsByPost: map<Id, seq<Id>>
    var currentPageByPost: map<Id, int>
    var totalCommentsByPost: map<Id, int>

    function State(): Spec.CommentState
      reads this
    {
      Spec.CommentState(isLoading, error, commentsById, commentsByPost, currentPageByPost, totalCommentsByPost)
    }

    ghost predicate Valid()
      reads this
    {
      Spec.Indexed(State())
    }

    constructor ()
      ensures Valid()
      ensures State() == Spec.InitialState
    {
      isLoading, error := false, None;
      commentsById, commentsByPost, currentPageByPost, totalCommentsByPost := map[], map[], map[], map[];
    }

    // -------------------------------------------------------------- reducers

    method StartLoading()
      requires Valid()
      modifies this
      ensures Valid()
      ensures State() == Spec.StartLoading(old(State()))
    {
      isLoading := true;
    }

    method HasError(message: string)
      requires Valid()
      modifies this
      ensures Valid()
      ensures State() == Spec.HasError(old(State()), message)
    {
      isLoading := false;
      error := Some(message);
    }

    method CreateCommentSuccess()
      requires Valid()
      modifies this
      ensures Valid()
      ensures State() == Spec.CreateCommentSuccess(old(State()))
    {
      isLoading := false;
      error := None;
    }

    method GetCommentSuccess(postId: Id, comments: seq<Doc>, count: int, page: int)
      requires Valid()
      modifies this
      ensures Valid()
      ensures State() == Spec.GetCommentSuccess(old(State()), postId, comments, count, page)
    {
      isLoading := false;
      error := None;
      var i := 0;
      while i < |comments|
        invariant 0 <= i <= |comments|
        invariant StoreDocs(commentsById, comments[i..]) == StoreDocs(old(commentsById), comments)
        invariant !isLoading && error == None
        invariant commentsByPost == old(commentsByPost) && currentPageByPost == old(currentPageByPost)
        invariant totalCommentsByPost == old(totalCommentsByPost)
      {
        assert comments[i..][1..] == comments[i + 1..];
        commentsById := commentsById[comments[i].id := comments[i]];
        i := i + 1;
      }
      assert comments[i..] == [];
      commentsByPost := commentsByPost[postId := Reverse(Ids(comments))];
      totalCommentsByPost := totalCommentsByPost[postId := count];
      currentPageByPost := currentPageByPost[postId := page];
    }

    method SendCommentReactionSuccess(commentId: Id, reactions: Value)
      requires Valid() && commentId in commentsById
      modifies this
      ensures Valid()
      ensures State() == Spec.SendCommentReactionSuccess(old(State()), commentId, reactions)
    {
      isLoading := false;
      error := None;
      var comment := commentsById[commentId];
      commentsById := commentsById[commentId := comment.(fields := comment.fields["reactions" := reactions])];
    }

    method DeleteCommentSuccess(postId: Id, commentId: Id)
      requires Valid() && postId in commentsByPost
      modifies this
      ensures Valid()
      ensures State() == Spec.DeleteCommentSuccess(old(State()), postId, commentId)
    {
      isLoading := false;
      error := None;
      commentsById := commentsById - {commentId};
      commentsByPost := commentsByPost[postId := Without(commentsByPost[postId], commentId)];
      totalCommentsByPost := totalCommentsByPost[postId := totalCommentsByPost[postId] - 1];
    }

    // -------------------------------------------------------------- thunks

    method GetComments(postId: Id, page: Option<int>, response: ApiResult<Spec.CommentPage>)
      requires Valid()
      modifies this
      ensures Valid()
      ensures State() == Spec.GetComments(old(State()), postId, page, response)
    {
      var requested := if page.Some? then page.value else 1;
      StartLoading();
      if response.Failure? {
        HasError(response.message);
      } else {
        GetCommentSuccess(postId, response.data.comments, response.data.count, requested);
      }
    }

    method CreateComment(postId: Id, response: ApiResult<Value>, refetch: ApiResult<Spec.CommentPage>)
      requires Valid()
      modifies this
      ensures Valid()
      ensures State() == Spec.CreateComment(old(State()), postId, response, refetch)
    {
      StartLoading();
      if response.Failure? {
        HasError(response.message);
      } else {
        CreateCommentSuccess();
        GetComments(postId, None, refetch);
      }
    }

    method SendCommentReaction(commentId: Id, response: ApiResult<Value>)
      requires Valid()
      requires response.Success? ==> commentId in commentsById
      modifies this
      ensures Valid()
      ensures State() == Spec.SendCommentReaction(old(State()), commentId, response)
    {
      StartLoading();
      if response.Failure? {
        HasError(response.message);
      } else {
        SendCommentReactionSuccess(commentId, response.data);
      }
    }

    method DeleteComment(postId: Id, commentId: Id, response: ApiResult<Unit>)
      requires Valid()
      requires response.Success? ==> postId in commentsByPost
      modifies this
      ensures Valid()
      ensures State() == Spec.DeleteComment(old(State()), postId, commentId, response)
    {
      StartLoading();
      if response.Failure? {
        HasError(response.message);
      } else {
        DeleteCommentSuccess(postId, commentId);
      }
    }
  }
}
