/** The `post` slice (src/features/post/postSlice.js) as values: its state, the transition each
    reducer performs, the composite transition each thunk performs for a given API outcome, and
    what those transitions guarantee. The class in module PostSlice is proved against these. */
module PostSliceSpec {
  import opened Api
  import opened IdLists
  import opened Values

  /** `totalPosts` is not in the initial state; it appears with the first fetched page. */
  datatype PostState = PostState(
    isLoading: bool,
    error: Option<string>,
    postsById: map<Id, Doc>,
    currentPagePosts: seq<Id>,
    totalPosts: Option<int>)

  const InitialState: PostState := PostState(false, None, map[], [], None)

  /** `POST_PER_PAGE`, the configured page size: a positive count. */
  type PageSize = n: nat | n > 0 witness 1

  /** The body `{count, posts}` of `GET /posts/user/{userId}`. */
  datatype PostPage = PostPage(count: int, posts: seq<Doc>)

  /** No listed id lacks its cached record. */
  ghost predicate Consistent(s: PostState) {
    forall id :: id in s.currentPagePosts ==> id in s.postsById
  }

  // ---------------------------------------------------------------- reducers

  function StartLoading(s: PostState): PostState {
    s.(isLoading := true)
  }

  function HasError(s: PostState, message: string): PostState {
    s.(isLoading := false, error := Some(message))
  }

  /** The list before the new id is put in front: its last id is popped when its length is a
      multiple of the page size (an empty list pops nothing). */
  function TrimForCreate(list: seq<Id>, postPerPage: PageSize): seq<Id>
  {
    if |list| % postPerPage == 0 then Pop(list) else list
  }

  function CreatePostSuccess(s: PostState, newPost: Doc, postPerPage: PageSize): PostState
  {
    s.(isLoading := false, error := None,
       postsById := s.postsById[newPost.id := newPost],
       currentPagePosts := [newPost.id] + TrimForCreate(s.currentPagePosts, postPerPage))
  }

  function GetPostSuccess(s: PostState, page: PostPage): PostState {
    s.(isLoading := false, error := None,
       postsById := StoreDocs(s.postsById, page.posts),
       currentPagePosts := AppendAbsent(s.currentPagePosts, Ids(page.posts)),
       totalPosts := Some(page.count))
  }

  /** Assigning into `postsById[postId]` throws when the post is not cached. */
  function SendPostReactionSuccess(s: PostState, postId: Id, reactions: Value): PostState
    requires postId in s.postsById
  {
    s.(isLoading := false, error := None,
       postsById := s.postsById[postId := SetReactions(s.postsById[postId], reactions)])
  }

  function ResetPosts(s: PostState): PostState {
    s.(postsById := map[], currentPagePosts := [])
  }

  function DeletePostSuccess(s: PostState, postId: Id): PostState {
    s.(isLoading := false, error := None,
       postsById := s.postsById - {postId},
       currentPagePosts := Without(s.currentPagePosts, postId))
  }

  function EditPostSuccess(s: PostState, updated: Doc): PostState {
    s.(isLoading := false, error := None,
       postsById := s.postsById[updated.id := ShallowMerge(Lookup(s.postsById, updated.id), updated)])
  }

  // ---------------------------------------------------------------- thunks

  /** `createPost`: the image upload, then `POST /posts`; either failure records its message. */
  function CreatePost(s: PostState, upload: ApiResult<Value>, response: ApiResult<Doc>, postPerPage: PageSize): PostState
  {
    var loading := StartLoading(s);
    match upload
    case Failure(m) => HasError(loading, m)
    case Success(_) =>
      match response
      case Failure(m) => HasError(loading, m)
      case Success(post) => CreatePostSuccess(loading, post, postPerPage)
  }

  /** `getPosts`: the cache is reset only once page 1 has arrived. */
  function GetPosts(s: PostState, page: int, response: ApiResult<PostPage>): PostState {
    var loading := StartLoading(s);
    match response
    case Failure(m) => HasError(loading, m)
    case Success(data) => GetPostSuccess(if page == 1 then ResetPosts(loading) else loading, data)
  }

  function SendPostReaction(s: PostState, postId: Id, response: ApiResult<Value>): PostState
    requires response.Success? ==> postId in s.postsById
  {
    var loading := StartLoading(s);
    match response
    case Failure(m) => HasError(loading, m)
    case Success(reactions) => SendPostReactionSuccess(loading, postId, reactions)
  }

  function DeletePost(s: PostState, postId: Id, response: ApiResult<Unit>): PostState {
    var loading := StartLoading(s);
    match response
    case Failure(m) => HasError(loading, m)
    case Success(_) => DeletePostSuccess(loading, postId)
  }

  /** `editPost`: an image that is not already a URL string is uploaded first. */
  function EditPost(s: PostState, image: Value, upload: ApiResult<Value>, response: ApiResult<Doc>): PostState {
    var loading := StartLoading(s);
    if !image.Str? && upload.Failure? then HasError(loading, upload.message)
    else
      match response
      case Failure(m) => HasError(loading, m)
      case Success(post) => EditPostSuccess(loading, post)
  }

  // ---------------------------------------------------------------- properties

  /** A created post is cached and listed first; the rest of the list is the old list, less its
      last id exactly when the old length was a positive multiple of the page size. */
  lemma CreatePostSuccessFront(s: PostState, newPost: Doc, postPerPage: PageSize)
    ensures var r := CreatePostSuccess(s, newPost, postPerPage);
      && r.currentPagePosts[0] == newPost.id
      && r.postsById[newPost.id] == newPost
      && (forall id :: id in s.postsById && id != newPost.id ==> r.postsById[id] == s.postsById[id])
      && r.postsById.Keys == s.postsById.Keys + {newPost.id}
      && r.totalPosts == s.totalPosts
      && r.currentPagePosts[1..] == s.currentPagePosts[..|r.currentPagePosts| - 1]
      && |r.currentPagePosts| ==
           if |s.currentPagePosts| > 0 && |s.currentPagePosts| % postPerPage == 0
           then |s.currentPagePosts| else |s.currentPagePosts| + 1
  {
  }

  /** Fetching a page keeps the listed ids as a prefix and appends, in received order, exactly
      the fetched ids that were not listed; a duplicate-free list stays duplicate-free. */
  lemma GetPostSuccessList(s: PostState, page: PostPage)
    ensures var r := GetPostSuccess(s, page).currentPagePosts;
      && |s.currentPagePosts| <= |r|
      && r[..|s.currentPagePosts|] == s.currentPagePosts
      && (forall id :: id in r <==> id in s.currentPagePosts || id in Ids(page.posts))
      && (forall id :: id in r[|s.currentPagePosts|..] <==> id in Ids(page.posts) && id !in s.currentPagePosts)
      && NoDup(r[|s.currentPagePosts|..])
      && (forall k :: 0 <= k <= |page.posts| ==> AppendAbsent(s.currentPagePosts, Ids(page.posts)[..k]) <= r)
      && IsSubseq(r[|s.currentPagePosts|..], Ids(page.posts))
      && (NoDup(s.currentPagePosts) ==> NoDup(r))
  {
    AppendAbsentShape(s.currentPagePosts, Ids(page.posts));
    forall k | 0 <= k <= |page.posts|
      ensures AppendAbsent(s.currentPagePosts, Ids(page.posts)[..k]) <= GetPostSuccess(s, page).currentPagePosts
    {
      AppendAbsentPrefix(s.currentPagePosts, Ids(page.posts), k);
    }
  }

  /** Fetching a page caches every fetched post under its id (a later copy of an id wins),
      keeps every other cached post and records the server's count. */
  lemma GetPostSuccessCache(s: PostState, page: PostPage)
    ensures var r := GetPostSuccess(s, page);
      && (forall id :: id in r.postsById <==> id in s.postsById || id in Ids(page.posts))
      && (forall id :: id in s.postsById && id !in Ids(page.posts) ==>
            id in r.postsById && r.postsById[id] == s.postsById[id])
      && (forall i :: 0 <= i < |page.posts| && (forall j :: i < j < |page.posts| ==> page.posts[j].id != page.posts[i].id) ==>
            page.posts[i].id in r.postsById && r.postsById[page.posts[i].id] == page.posts[i])
      && r.totalPosts == Some(page.count)
  {
    StoreDocsKeys(s.postsById, page.posts);
    StoreDocsKeepsOthers(s.postsById, page.posts);
    forall i | 0 <= i < |page.posts| && (forall j :: i < j < |page.posts| ==> page.posts[j].id != page.posts[i].id)
      ensures page.posts[i].id in StoreDocs(s.postsById, page.posts)
      ensures StoreDocs(s.postsById, page.posts)[page.posts[i].id] == page.posts[i]
    {
      StoreDocsLastWins(s.postsById, page.posts, i);
    }
  }

  /** Reacting replaces only the `reactions` field of that one post. */
  lemma SendPostReactionSuccessOnlyReactions(s: PostState, postId: Id, reactions: Value)
    requires postId in s.postsById
    ensures var r := SendPostReactionSuccess(s, postId, reactions);
      && r.postsById.Keys == s.postsById.Keys
      && r.currentPagePosts == s.currentPagePosts
      && r.totalPosts == s.totalPosts
      && r.postsById[postId].fields["reactions"] == reactions
      && r.postsById[postId] == s.postsById[postId].(fields := r.postsById[postId].fields)
      && r.postsById[postId].fields.Keys == s.postsById[postId].fields.Keys + {"reactions"}
      && (forall f :: f in s.postsById[postId].fields && f != "reactions" ==>
            f in r.postsById[postId].fields && r.postsById[postId].fields[f] == s.postsById[postId].fields[f])
      && (forall id :: id in s.postsById && id != postId ==> r.postsById[id] == s.postsById[id])
  {
  }

  /** Deleting removes the post from the cache and every occurrence of its id from the list,
      keeps the other ids in order, and leaves the total alone. */
  lemma {:induction false} DeletePostSuccessRemoves(s: PostState, postId: Id)
    ensures var r := DeletePostSuccess(s, postId);
      && postId !in r.postsById
      && (forall id :: id in s.postsById && id != postId ==> id in r.postsById && r.postsById[id] == s.postsById[id])
      && (forall id :: id in r.currentPagePosts <==> id in s.currentPagePosts && id != postId)
      && IsSubseq(r.currentPagePosts, s.currentPagePosts)
      && (forall id :: id != postId ==> multiset(r.currentPagePosts)[id] == multiset(s.currentPagePosts)[id])
      && r.totalPosts == s.totalPosts
  {
    WithoutShape(s.currentPagePosts, postId);
    WithoutKeepsCopies(s.currentPagePosts, postId);
  }

  /** Deleting the same post twice is deleting it once. */
  lemma {:induction false} DeletePostSuccessIdempotent(s: PostState, postId: Id)
    ensures DeletePostSuccess(DeletePostSuccess(s, postId), postId) == DeletePostSuccess(s, postId)
  {
    WithoutIdempotent(s.currentPagePosts, postId);
    assert s.postsById - {postId} - {postId} == s.postsById - {postId};
  }

  /** Editing shallow-merges: the server's fields win, the other cached fields are kept, and
      only that one post changes. */
  lemma EditPostSuccessMerges(s: PostState, updated: Doc)
    ensures var r := EditPostSuccess(s, updated);
      && updated.id in r.postsById
      && (forall f :: f in updated.fields ==>
            f in r.postsById[updated.id].fields && r.postsById[updated.id].fields[f] == updated.fields[f])
      && (updated.id in s.postsById ==> forall f :: f in s.postsById[updated.id].fields && f !in updated.fields ==>
            f in r.postsById[updated.id].fields && r.postsById[updated.id].fields[f] == s.postsById[updated.id].fields[f])
      && (forall id :: id in s.postsById && id != updated.id ==> r.postsById[id] == s.postsById[id])
      && r.postsById.Keys == s.postsById.Keys + {updated.id}
      && r.currentPagePosts == s.currentPagePosts
      && r.totalPosts == s.totalPosts
  {
  }

  /** On any failed request a thunk only clears the loading flag and records the message. */
  lemma FailedRequestsKeepCache(s: PostState, postId: Id, page: int, image: Value, message: string,
                                upload: ApiResult<Value>, created: ApiResult<Doc>, edited: ApiResult<Doc>,
                                postPerPage: PageSize)
    ensures var failed := s.(isLoading := false, error := Some(message));
      && CreatePost(s, Failure(message), created, postPerPage) == failed
      && (upload.Success? ==> CreatePost(s, upload, Failure(message), postPerPage) == failed)
      && GetPosts(s, page, Failure(message)) == failed
      && SendPostReaction(s, postId, Failure(message)) == failed
      && DeletePost(s, postId, Failure(message)) == failed
      && (!image.Str? ==> EditPost(s, image, Failure(message), edited) == failed)
      && ((image.Str? || upload.Success?) ==> EditPost(s, image, upload, Failure(message)) == failed)
  {
  }

  /** Page 1 replaces the cache by the fetched posts; any other page keeps the cached list as a
      prefix. */
  lemma {:induction false} GetPostsPageOneResets(s: PostState, page: int, data: PostPage)
    ensures page == 1 ==> forall id :: id in GetPosts(s, page, Success(data)).postsById <==> id in Ids(data.posts)
    ensures page == 1 ==> forall id :: id in GetPosts(s, page, Success(data)).currentPagePosts <==> id in Ids(data.posts)
    ensures page == 1 ==> NoDup(GetPosts(s, page, Success(data)).currentPagePosts)
    ensures page != 1 ==> |s.currentPagePosts| <= |GetPosts(s, page, Success(data)).currentPagePosts|
    ensures page != 1 ==>
      GetPosts(s, page, Success(data)).currentPagePosts[..|s.currentPagePosts|] == s.currentPagePosts
  {
    var base := if page == 1 then ResetPosts(StartLoading(s)) else StartLoading(s);
    GetPostSuccessList(base, data);
    GetPostSuccessCache(base, data);
  }

  /** Two consecutive pages with distinct posts, the first being page 1, list exactly their ids
      in order, and the total is the second page's count. */
  lemma {:induction false} TwoPagesConcatenate(s: PostState, first: PostPage, second: PostPage, secondPage: int)
    requires secondPage != 1
    requires NoDup(Ids(first.posts) + Ids(second.posts))
    ensures var r := GetPosts(GetPosts(s, 1, Success(first)), secondPage, Success(second));
      && r.currentPagePosts == Ids(first.posts) + Ids(second.posts)
      && r.totalPosts == Some(second.count)
  {
    var ids1, ids2 := Ids(first.posts), Ids(second.posts);
    forall i, j | 0 <= i < j < |ids1| ensures ids1[i] != ids1[j] {
      assert (ids1 + ids2)[i] == ids1[i] && (ids1 + ids2)[j] == ids1[j];
    }
    forall i, j | 0 <= i < j < |ids2| ensures ids2[i] != ids2[j] {
      assert (ids1 + ids2)[|ids1| + i] == ids2[i] && (ids1 + ids2)[|ids1| + j] == ids2[j];
    }
    forall x | x in ids2 ensures x !in ids1 {
      var j :| 0 <= j < |ids2| && ids2[j] == x;
      forall i | 0 <= i < |ids1| ensures ids1[i] != x {
        assert (ids1 + ids2)[i] == ids1[i] && (ids1 + ids2)[|ids1| + j] == ids2[j];
      }
    }
    AppendAbsentFresh([], ids1);
    assert [] + ids1 == ids1;
    assert GetPosts(s, 1, Success(first)).currentPagePosts == ids1;
    AppendAbsentFresh(ids1, ids2);
  }

  /** Creating a post that was neither cached nor listed and then deleting it leaves the cache
      as it was and the list as it was after the page-boundary trim; the total never moves. */
  lemma {:induction false} CreateThenDelete(s: PostState, newPost: Doc, postPerPage: PageSize)
    requires newPost.id !in s.postsById && newPost.id !in s.currentPagePosts
    ensures var r := DeletePostSuccess(CreatePostSuccess(s, newPost, postPerPage), newPost.id);
      && r.postsById == s.postsById
      && r.currentPagePosts == TrimForCreate(s.currentPagePosts, postPerPage)
      && r.totalPosts == s.totalPosts
  {
    var trimmed := TrimForCreate(s.currentPagePosts, postPerPage);
    assert newPost.id !in trimmed;
    WithoutShape(trimmed, newPost.id);
    assert ([newPost.id] + trimmed)[1..] == trimmed;
    assert s.postsById[newPost.id := newPost] - {newPost.id} == s.postsById;
  }

  /** Every reducer keeps each listed id cached. */
  lemma {:induction false} ReducersKeepConsistent(s: PostState, newPost: Doc, page: PostPage, postId: Id,
                                                  reactions: Value, updated: Doc, message: string, postPerPage: PageSize)
    requires Consistent(s)
    ensures Consistent(StartLoading(s)) && Consistent(HasError(s, message)) && Consistent(ResetPosts(s))
    ensures Consistent(CreatePostSuccess(s, newPost, postPerPage))
    ensures Consistent(GetPostSuccess(s, page))
    ensures postId in s.postsById ==> Consistent(SendPostReactionSuccess(s, postId, reactions))
    ensures Consistent(DeletePostSuccess(s, postId))
    ensures Consistent(EditPostSuccess(s, updated))
  {
    GetPostSuccessList(s, page);
    GetPostSuccessCache(s, page);
    DeletePostSuccessRemoves(s, postId);
    var trimmed := TrimForCreate(s.currentPagePosts, postPerPage);
    assert forall id :: id in trimmed ==> id in s.currentPagePosts;
  }
}
