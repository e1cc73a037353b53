/** The `post` slice as the store holds it: fields that the reducers update in place, and the
    thunks, each given the outcome of its requests. Every method is proved to perform exactly
    the transition of module PostSliceSpec. */
module PostSlice {
  import opened Api
  import opened IdLists
  import opened Values
  import Spec = PostSliceSpec

  class PostStore {
    /** `POST_PER_PAGE` from the application's configuration. */
    const postPerPage: Spec.PageSize
    var isLoading: bool
    var error: Option<string>
    var postsById: map<Id, Doc>
    var currentPagePosts: seq<Id>
    var totalPosts: Option<int>

    function State(): Spec.PostState
      reads this
    {
      Spec.PostState(isLoading, error, postsById, currentPagePosts, totalPosts)
    }

    constructor (postPerPage: Spec.PageSize)
      ensures this.postPerPage == postPerPage
      ensures State() == Spec.InitialState
    {
      this.postPerPage := postPerPage;
      isLoading, error := false, None;
      postsById, currentPagePosts, totalPosts := map[], [], None;
    }

    // -------------------------------------------------------------- reducers

    method StartLoading()
      modifies this
      ensures State() == Spec.StartLoading(old(State()))
    {
      isLoading := true;
    }

    method HasError(message: string)
      modifies this
      ensures State() == Spec.HasError(old(State()), message)
    {
      isLoading := false;
      error := Some(message);
    }

    method CreatePostSuccess(newPost: Doc)
      modifies this
      ensures State() == Spec.CreatePostSuccess(old(State()), newPost, postPerPage)
    {
      isLoading := false;
      error := None;
      if |currentPagePosts| % postPerPage == 0 {
        currentPagePosts := Pop(currentPagePosts);
      }
      postsById := postsById[newPost.id := newPost];
      currentPagePosts := [newPost.id] + currentPagePosts;
    }

    method GetPostSuccess(page: Spec.PostPage)
      modifies this
      ensures State() == Spec.GetPostSuccess(old(State()), page)
    {
      isLoading := false;
      error := None;
      var posts := page.posts;
      var i := 0;
      while i < |posts|
        invariant 0 <= i <= |posts|
        invariant StoreDocs(postsById, posts[i..]) == StoreDocs(old(postsById), posts)
        invariant AppendAbsent(currentPagePosts, Ids(posts[i..])) == AppendAbsent(old(currentPagePosts), Ids(posts))
        invariant !isLoading && error == None && totalPosts == old(totalPosts)
      {
        var post := posts[i];
        assert posts[i..][1..] == posts[i + 1..];
        IdsTail(posts[i..]);
        postsById := postsById[post.id := post];
        if post.id !in currentPagePosts {
          currentPagePosts := currentPagePosts + [post.id];
        }
        i := i + 1;
      }
      assert posts[i..] == [];
      totalPosts := Some(page.count);
    }

    method SendPostReactionSuccess(postId: Id, reactions: Value)
      requires postId in postsById
      modifies this
      ensures State() == Spec.SendPostReactionSuccess(old(State()), postId, reactions)
    {
      isLoading := false;
      error := None;
      var post := postsById[postId];
      postsById := postsById[postId := post.(fields := post.fields["reactions" := reactions])];
    }

    method ResetPosts()
      modifies this
      ensures State() == Spec.ResetPosts(old(State()))
    {
      postsById := map[];
      currentPagePosts := [];
    }

    method DeletePostSuccess(postId: Id)
      modifies this
      ensures State() == Spec.DeletePostSuccess(old(State()), postId)
    {
      isLoading := false;
      error := None;
      postsById := postsById - {postId};
      currentPagePosts := Without(currentPagePosts, postId);
    }

    method EditPostSuccess(updated: Doc)
      modifies this
      ensures State() == Spec.EditPostSuccess(old(State()), updated)
    {
      isLoading := false;
      error := None;
      postsById := postsById[updated.id := ShallowMerge(Lookup(postsById, updated.id), updated)];
    }

    // -------------------------------------------------------------- thunks

    method CreatePost(upload: ApiResult<Value>, response: ApiResult<Doc>)
      modifies this
      ensures State() == Spec.CreatePost(old(State()), upload, response, postPerPage)
    {
      StartLoading();
      if upload.Failure? {
        HasError(upload.message);
      } else if response.Failure? {
        HasError(response.message);
      } else {
        CreatePostSuccess(response.data);
      }
    }

    method GetPosts(page: int, response: ApiResult<Spec.PostPage>)
      modifies this
      ensures State() == Spec.GetPosts(old(State()), page, response)
    {
      StartLoading();
      if response.Failure? {
        HasError(response.message);
      } else {
        if page == 1 {
          ResetPosts();
        }
        GetPostSuccess(response.data);
      }
    }

    method SendPostReaction(postId: Id, response: ApiResult<Value>)
      requires response.Success? ==> postId in postsById
      modifies this
      ensures State() == Spec.SendPostReaction(old(State()), postId, response)
    {
      StartLoading();
      if response.Failure? {
        HasError(response.message);
      } else {
        SendPostReactionSuccess(postId, response.data);
      }
    }

    method DeletePost(postId: Id, response: ApiResult<Unit>)
      modifies this
      ensures State() == Spec.DeletePost(old(State()), postId, response)
    {
      StartLoading();
      if response.Failure? {
        HasError(response.message);
      } else {
        DeletePostSuccess(postId);
      }
    }

    method EditPost(image: Value, upload: ApiResult<Value>, response: ApiResult<Doc>)
      modifies this
      ensures State() == Spec.EditPost(old(State()), image, upload, response)
    {
      StartLoading();
      if !image.Str? && upload.Failure? {
        HasError(upload.message);
      } else if response.Failure? {
        HasError(response.message);
      } else {
        EditPostSuccess(response.data);
      }
    }
  }
}
