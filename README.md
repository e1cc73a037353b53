# Client-side caches and session of a social-network web client

This project models, in Dafny, the state logic of a browser client for a small social network
(posts, comments, reactions, friendships, sign-in). The client keeps two normalised caches in a
Redux store and an authentication session in a React context:

- the **post slice** (`postSlice.js`): `postsById`, a map from post id to the post record, and
  `currentPagePosts`, the ordered list of listed ids, plus `totalPosts`, `isLoading` and `error`;
- the **comment slice** (`commentSlice.js`): `commentsById`, and per post the ordered comment
  ids (`commentsByPost`), the total (`totalCommentsByPost`) and the page shown
  (`currentPageByPost`);
- the **auth context** (`AuthContext.js`): the reducer over `{isInitialized, isAuthenticated,
  user}` and the provider operations that persist or remove the access token;
- the **friendship badge** (`FriendStatus.js`): the label shown for a friendship record.

Each slice is modelled twice, as the code has it and as what it means:

- `PostSliceSpec` / `CommentSliceSpec` give the slice state as a datatype, one transition
  function per reducer, and one per thunk. A thunk's transition takes the outcome of each request
  as an input, `Success(data)` or `Failure(message)`. The lemmas beside them state what the
  source promises: membership, order, lengths, "nothing else changes", idempotence, and the
  invariants every reducer keeps.
- `PostSlice.PostStore` / `CommentSlice.CommentStore` are classes whose fields the methods update
  in place, as the reducers mutate their draft state. The `forEach` loops of `getPostSuccess` and
  `getCommentSuccess` are `while` loops. Every method is proved to end in exactly the state the
  matching transition function gives.

`IdLists` and `Values` hold the list and record operations the reducers share: append-if-absent,
filter, pop, reverse, storing a page of records by id, replacing a record's `reactions` and the
`{...cached, ...updated}` merge. `AuthContext` holds the pure reducer with its lemmas, and the
`AuthProvider` class models the provider over an abstract token store, `storage`, the
`localStorage` map.

Points where the code's behaviour is easy to misread; the model follows the code:

- a comment count is decremented with no floor at 0;
- a reaction for a record that is not cached is not a no-op: assigning into `undefined` throws,
  so it is a precondition;
- deleting a post leaves `totalPosts` alone;
- UPDATE_PROFILE writes the user even when nobody is signed in (`UpdateProfileWhileLoggedOut`).

## Model

| member | source | states |
|---|---|---|
| `IdLists.Pop` | src/features/post/postSlice.js:29-30 | popping drops the last id of a non-empty list, keeps the rest as a prefix, and leaves an empty list empty |
| `IdLists.AppendAbsentShape` | src/features/post/postSlice.js:39-44 | pushing each fetched id unless already included keeps the old list as a prefix, adds once each exactly the fetched ids that were not listed, as a subsequence of the fetched ids (their first-occurrence order is `IdLists.AppendAbsentPrefix`), whatever duplicates the old list holds, and keeps a duplicate-free list duplicate-free |
| `IdLists.AppendAbsentSplit` | src/features/post/postSlice.js:39-44 | pushing a page's ids one by one is pushing its first `k` ids and then the rest |
| `IdLists.AppendAbsentPrefix` | src/features/post/postSlice.js:39-44 | the list after the first `k` fetched ids is a prefix of the list after the whole page, so added ids keep the order of their first occurrence in the page |
| `IdLists.AppendAbsentFresh` | src/features/post/postSlice.js:39-44 | when no fetched id is listed and none repeats, the fetched ids are appended verbatim |
| `IdLists.WithoutShape` | src/features/post/postSlice.js:62 | the filter removes every occurrence of the id, keeps every other id in its order, changes nothing when the id is absent, and on a duplicate-free list shortens it by one when the id is present |
| `IdLists.WithoutKeepsCopies` | src/features/post/postSlice.js:62 | the filter keeps every copy of every other id: each other id occurs as often as before |
| `IdLists.WithoutIdempotent` | src/features/post/postSlice.js:62 | filtering an id out twice equals filtering it out once |
| `Values.StoreDocsKeys` | src/features/post/postSlice.js:39-40 | after writing each fetched record by id, the cached ids are the old ids plus the fetched ids |
| `Values.StoreDocsKeepsOthers` | src/features/post/postSlice.js:39-40 | a cached record whose id was not fetched is untouched |
| `Values.StoreDocsLastWins` | src/features/comment/commentSlice.js:35-37 | a fetched id holds the last fetched record with that id |
| `Values.SetReactions` | src/features/post/postSlice.js:51 | the record keeps its id, its `reactions` field becomes the given counts, and every other field is unchanged |
| `Values.ShallowMerge` | src/features/post/postSlice.js:68-71 | the merged record has the updated id, every updated field wins, every other cached field is kept, and no other field appears; with no cached record only the updated fields remain |
| `PostSliceSpec.CreatePostSuccessFront` | src/features/post/postSlice.js:25-34 | the created post is cached and listed at index 0, other cached posts and the total are unchanged, the rest of the list is a prefix of the old list, and the length stays the same when the old length was a positive multiple of the page size and grows by one otherwise |
| `PostSliceSpec.GetPostSuccessList` | src/features/post/postSlice.js:35-44 | a fetched page keeps the listed ids as a prefix and appends, once each and in the order of their first occurrence in the page, exactly the fetched ids not yet listed, even when the listed ids or the page hold duplicates; a duplicate-free list stays duplicate-free |
| `PostSliceSpec.GetPostSuccessCache` | src/features/post/postSlice.js:35-46 | every fetched post is cached under its id (a later copy wins), other cached posts are kept, and `totalPosts` becomes the server's count |
| `PostSliceSpec.SendPostReactionSuccessOnlyReactions` | src/features/post/postSlice.js:47-52 | only the `reactions` field of the one cached post changes, its field names gain at most `reactions`, and the post keeps its id; the cached ids, the list, the total and all other posts are unchanged |
| `PostSliceSpec.DeletePostSuccessRemoves` | src/features/post/postSlice.js:57-63 | the post leaves the cache and every occurrence of its id leaves the list, the other ids keep their order and every copy, and `totalPosts` is unchanged |
| `PostSliceSpec.DeletePostSuccessIdempotent` | src/features/post/postSlice.js:57-63 | deleting the same post twice gives the same state as deleting it once |
| `PostSliceSpec.EditPostSuccessMerges` | src/features/post/postSlice.js:64-72 | the server's fields win, the other cached fields of that post are kept, the cached ids become the old ids plus the edited one, and other posts, the list and the total are unchanged |
| `PostSliceSpec.FailedRequestsKeepCache` | src/features/post/postSlice.js:76-157 | when a request or the image upload fails, every post thunk only clears `isLoading` and records the message, whatever the request after a failed upload would have returned; the cache, list and total are unchanged |
| `PostSliceSpec.GetPostsPageOneResets` | src/features/post/postSlice.js:92-105 | a successful page 1 leaves exactly the fetched posts cached and listed, without duplicates; any other page keeps the old list as a prefix |
| `PostSliceSpec.TwoPagesConcatenate` | src/features/post/postSlice.js:92-105 | page 1 then a later page with distinct posts lists exactly the ids of both pages in order, and the total is the later count |
| `PostSliceSpec.CreateThenDelete` | src/features/post/postSlice.js:25-63 | creating a fresh post and deleting it restores the cache, leaves the list as the page-boundary trim left it, and never moves the total |
| `PostSliceSpec.ReducersKeepConsistent` | src/features/post/postSlice.js:17-73 | every reducer keeps each listed post id cached |
| `PostSlice.PostStore.constructor` | src/features/post/postSlice.js:7-12 | the store starts not loading, without error, with an empty cache and list and no total |
| `PostSlice.PostStore.StartLoading` | src/features/post/postSlice.js:18-20 | sets `isLoading` and changes nothing else |
| `PostSlice.PostStore.HasError` | src/features/post/postSlice.js:21-24 | clears `isLoading`, records the message, and changes nothing else |
| `PostSlice.PostStore.CreatePostSuccess` | src/features/post/postSlice.js:25-34 | pops at a page boundary, caches the post and puts its id first, as `PostSliceSpec.CreatePostSuccess` |
| `PostSlice.PostStore.GetPostSuccess` | src/features/post/postSlice.js:35-46 | the loop over the fetched posts leaves the cache, list and total of `PostSliceSpec.GetPostSuccess` |
| `PostSlice.PostStore.SendPostReactionSuccess` | src/features/post/postSlice.js:47-52 | for a cached post, replaces its reactions, as `PostSliceSpec.SendPostReactionSuccess` |
| `PostSlice.PostStore.ResetPosts` | src/features/post/postSlice.js:53-56 | empties the cache and the list and keeps the flags and the total |
| `PostSlice.PostStore.DeletePostSuccess` | src/features/post/postSlice.js:57-63 | removes the post from the cache and its id from the list, as `PostSliceSpec.DeletePostSuccess` |
| `PostSlice.PostStore.EditPostSuccess` | src/features/post/postSlice.js:64-72 | shallow-merges the server's post into the cached one, as `PostSliceSpec.EditPostSuccess` |
| `PostSlice.PostStore.CreatePost` | src/features/post/postSlice.js:76-90 | starts loading, then records the upload's or the request's failure, or applies `createPostSuccess` |
| `PostSlice.PostStore.GetPosts` | src/features/post/postSlice.js:92-105 | starts loading, then records a failure, or resets the cache when the page is 1 and applies `getPostSuccess` |
| `PostSlice.PostStore.SendPostReaction` | src/features/post/postSlice.js:107-123 | starts loading, then records a failure or replaces the cached post's reactions with the server's counts |
| `PostSlice.PostStore.DeletePost` | src/features/post/postSlice.js:125-135 | starts loading, then records a failure or deletes the post from cache and list |
| `PostSlice.PostStore.EditPost` | src/features/post/postSlice.js:137-157 | starts loading, uploads only an image that is not a string, then records a failure or merges the returned post |
| `CommentSliceSpec.GetCommentSuccessIndex` | src/features/comment/commentSlice.js:30-43 | the post's list becomes the fetched ids in reverse order, its count and page are set, and other posts' entries are untouched |
| `CommentSliceSpec.GetCommentSuccessCache` | src/features/comment/commentSlice.js:34-40 | every fetched comment is cached under its id (a later copy wins), other cached comments are kept, and each id in the post's new list is cached |
| `CommentSliceSpec.GetCommentsStoresRequestedPage` | src/features/comment/commentSlice.js:78-92 | the page stored for the post is the requested page, 1 by default, whatever page the response carries |
| `CommentSliceSpec.DeleteCommentSuccessRemoves` | src/features/comment/commentSlice.js:50-57 | the comment leaves the cache and its post's list, other ids keep their order and every copy, the post's count drops by exactly one, and every other post keeps its list, count and page; no post gains or loses an entry |
| `CommentSliceSpec.DeleteCommentCountHasNoFloor` | src/features/comment/commentSlice.js:56 | a count of 0 becomes -1: there is no floor |
| `CommentSliceSpec.SendCommentReactionSuccessOnlyReactions` | src/features/comment/commentSlice.js:44-49 | only the `reactions` field of the one cached comment changes, its field names gain at most `reactions`, and it keeps its id; the cached ids, other comments and all per-post lists, counts and pages are unchanged |
| `CommentSliceSpec.CreateCommentOnlyRefetches` | src/features/comment/commentSlice.js:63-76 | after a created comment the caches change only through the refetch of page 1: the post gets the refetched ids reversed, the refetched count and page 1, the fetched comments are cached, and every other post keeps its entries; a failed refetch only records its message |
| `CommentSliceSpec.FailedRequestsKeepCache` | src/features/comment/commentSlice.js:63-126 | on a failed request every comment thunk only clears `isLoading` and records the message, whatever the refetch after a failed creation would have returned; all four maps are unchanged |
| `CommentSliceSpec.ReducersKeepIndexed` | src/features/comment/commentSlice.js:19-57 | every reducer keeps the list, count and page maps over the same posts |
| `CommentSlice.CommentStore.constructor` | src/features/comment/commentSlice.js:6-13 | the store starts not loading, without error and with four empty maps |
| `CommentSlice.CommentStore.StartLoading` | src/features/comment/commentSlice.js:19-21 | sets `isLoading` and changes nothing else |
| `CommentSlice.CommentStore.HasError` | src/features/comment/commentSlice.js:22-25 | clears `isLoading`, records the message, and changes nothing else |
| `CommentSlice.CommentStore.CreateCommentSuccess` | src/features/comment/commentSlice.js:26-29 | clears `isLoading` and `error` and touches no map |
| `CommentSlice.CommentStore.GetCommentSuccess` | src/features/comment/commentSlice.js:30-43 | the loop caches the fetched comments, then the post's list, count and page are set, as `CommentSliceSpec.GetCommentSuccess` |
| `CommentSlice.CommentStore.SendCommentReactionSuccess` | src/features/comment/commentSlice.js:44-49 | for a cached comment, replaces its reactions |
| `CommentSlice.CommentStore.DeleteCommentSuccess` | src/features/comment/commentSlice.js:50-57 | for a post with a list, removes the comment and decrements the count, as `CommentSliceSpec.DeleteCommentSuccess` |
| `CommentSlice.CommentStore.GetComments` | src/features/comment/commentSlice.js:78-97 | starts loading, then records a failure or stores the fetched page under the requested page number |
| `CommentSlice.CommentStore.CreateComment` | src/features/comment/commentSlice.js:63-76 | starts loading, then records a failure, or clears the flags and refetches page 1 of the post |
| `CommentSlice.CommentStore.SendCommentReaction` | src/features/comment/commentSlice.js:99-115 | starts loading, then records a failure or replaces the cached comment's reactions |
| `CommentSlice.CommentStore.DeleteComment` | src/features/comment/commentSlice.js:117-126 | starts loading, then records a failure or deletes the comment |
| `AuthContext.ReduceInitialized` | src/contexts/AuthContext.js:18-85 | INITIALIZE sets `isInitialized` together with the payload's flag and user; no other action changes `isInitialized` |
| `AuthContext.ReduceAllInitialized` | src/contexts/AuthContext.js:18-85 | after any sequence of actions the session is initialized exactly when it already was or one of the actions was INITIALIZE, so once true it stays true |
| `AuthContext.LoginAndRegisterAuthenticate` | src/contexts/AuthContext.js:28-39 | LOGIN_SUCCESS and REGISTER_SUCCESS authenticate the payload's user and keep `isInitialized` |
| `AuthContext.LogoutClearsUser` | src/contexts/AuthContext.js:40-45 | LOGOUT clears the flag and the user and keeps `isInitialized` |
| `AuthContext.UpdateProfileOverwritesProfileFields` | src/contexts/AuthContext.js:46-81 | exactly the fourteen profile fields are overwritten from the payload (absent ones become `undefined`), every other user field is kept, and both flags are unchanged |
| `AuthContext.OtherActionsKeepState` | src/contexts/AuthContext.js:82-83 | an action whose type is none of the five known types returns the state unchanged |
| `AuthContext.UpdateProfileWhileLoggedOut` | src/contexts/AuthContext.js:46-81 | a profile update on any signed-out session leaves it signed out but gives it a user object holding the fourteen profile fields |
| `AuthContext.AuthProvider.constructor` | src/contexts/AuthContext.js:6-10 | the provider starts uninitialized, unauthenticated and without user, over the given storage |
| `AuthContext.AuthProvider.Dispatch` | src/contexts/AuthContext.js:100 | dispatching replaces the state by the reducer's result |
| `AuthContext.AuthProvider.SetSession` | src/contexts/AuthContext.js:89-97 | a truthy token is stored under `accessToken`; an absent or empty one removes the stored token; no other key changes |
| `AuthContext.AuthProvider.Initialize` | src/contexts/AuthContext.js:103-140 | the session ends initialized; it is authenticated, with the `/users/me` user and the token kept, exactly when a truthy stored token is valid and the request succeeds; on every other path the token is removed and the user is null |
| `AuthContext.AuthProvider.SignIn` | src/contexts/AuthContext.js:147-171 | a failed request rejects with its message and changes nothing; a successful one dispatches the success action, stores a truthy returned token under `accessToken` or removes the stored one, and leaves every other stored entry as it was |
| `AuthContext.AuthProvider.Login` | src/contexts/AuthContext.js:147-158 | a failed login rejects and changes nothing; a successful one authenticates the returned user, keeps `isInitialized`, stores the returned token when truthy and removes the stored one otherwise, and leaves every other stored entry as it was |
| `AuthContext.AuthProvider.Register` | src/contexts/AuthContext.js:160-171 | as login, through `POST /users` and REGISTER_SUCCESS |
| `AuthContext.AuthProvider.Logout` | src/contexts/AuthContext.js:173-177 | removes the stored token and signs out, without any request, keeping `isInitialized` |
| `FriendBadge.FriendStatus` | src/features/friend/FriendStatus.js:8-57 | nothing for oneself or without a record; "Friend" exactly for an accepted record, "Declined" for a declined one, "Request sent" for a pending request from the current user to the target, "Waiting for response" for one from the target to the current user |
| `FriendBadge.UnrecognisedShowsNothing` | src/features/friend/FriendStatus.js:56-57 | any other status, or a pending request that does not join the two users, shows nothing |
| `FriendBadge.FriendStatusFromOtherSide` | src/features/friend/FriendStatus.js:37-54 | seen from the target's side the badge is the same, except that "Request sent" and "Waiting for response" swap |

## Left out

- UI components (post and comment cards, forms, reaction buttons, loading screen, footer, alerts, theme): they render and dispatch the thunks modelled here.
- REST requests and the image upload: their outcomes are inputs, and the request parameters (`userId`, `limit`, request bodies) only shape requests the model does not make.
- The provider's effect that dispatches UPDATE_PROFILE whenever the user slice's `updatedProfile` becomes truthy (src/contexts/AuthContext.js:142-145): the user slice is not part of this model; the dispatched action itself is `AuthContext.Reduce` on `UpdateProfile`.
- Toast notifications, the `callback()` navigation after login, register and logout, and routing: user-interface effects with no state here.
- The `Authorization` default header that `setSession` writes and deletes: shared state of the HTTP client outside these files.
- Token decoding and the clock (`src/utils/jwt.js`): `AuthProvider.Initialize` takes token validity as a predicate. An invalid token takes the `else` branch and a token that fails to decode takes the `catch`; both remove the token and dispatch INITIALIZE with `isAuthenticated: false` and a null user, so a token that fails to decode is an invalid token here.
- Concurrent and out-of-order completion of thunks: each reducer is one atomic transition, and each thunk runs to completion before the next starts.
- JavaScript numbers (IEEE-754 doubles) are modelled as unbounded integers; counts and pages never hold fractions or `NaN` here.
- `PostSliceSpec.SendPostReaction`: requires the post to be cached when the request succeeds. The source's reducer throws a `TypeError` there, which the thunk's `catch` would turn into `hasError` with the engine's message; that path is not modelled. `CommentSliceSpec.SendCommentReaction` is the same for comments.
- `CommentSliceSpec.DeleteCommentSuccess`: requires the post to have a list, because filtering `undefined` throws. The `NaN` count that `undefined - 1` would give cannot arise, because `Indexed` keeps the count beside the list.
- `PostSlice.PostStore.constructor`: takes a positive `POST_PER_PAGE` (type `PageSize`). The configuration value is not part of this model; with 0 the source's `%` would give `NaN` and never pop.
- `AuthContext.Reduce`: spreading a user that is neither an object nor null is not modelled; such a user contributes no field.
- The comment page `count` and post page `count` are taken as integers; a response without `count` would store `undefined`.
