/** The friendship badge (src/features/friend/FriendStatus.js): which chip, if any, is shown
    for the friendship between the signed-in user and the user whose profile is displayed. */
module FriendBadge {
  import opened Api
  import opened IdLists

  /** A friendship record as the server sends it. */
  datatype Friendship = Friendship(status: string, from: Id, to: Id)

  datatype Label = Friend | Declined | RequestSent | WaitingForResponse

  /** The early-return chain of `FriendStatus`; `None` is rendering nothing. */
  function FriendStatus(currentUserId: Id, targetUserId: Id, friendship: Option<Friendship>): (r: Option<Label>)
    ensures currentUserId == targetUserId ==> r == None
    ensures friendship == None ==> r == None
    ensures r == Some(Friend) <==>
              currentUserId != targetUserId && friendship.Some? && friendship.value.status == "accepted"
    ensures r == Some(Declined) <==>
              currentUserId != targetUserId && friendship.Some? && friendship.value.status == "declined"
    ensures r == Some(RequestSent) <==>
              && currentUserId != targetUserId && friendship.Some? && friendship.value.status == "pending"
              && friendship.value.from == currentUserId && friendship.value.to == targetUserId
    ensures r == Some(WaitingForResponse) <==>
              && currentUserId != targetUserId && friendship.Some? && friendship.value.status == "pending"
              && friendship.value.from == targetUserId && friendship.value.to == currentUserId
  {
    if currentUserId == targetUserId then None
    else if friendship.None? then None
    else
      var f := friendship.value;
      if f.status == "accepted" then Some(Friend)
      else if f.status == "declined" then Some(Declined)
      else if f.status == "pending" then
        if f.from == currentUserId && f.to == targetUserId then Some(RequestSent)
        else if f.from == targetUserId && f.to == currentUserId then Some(WaitingForResponse)
        else None
      else None
  }

  /** Any other status, or a pending request between two other users, shows nothing. */
  lemma UnrecognisedShowsNothing(currentUserId: Id, targetUserId: Id, f: Friendship)
    requires f.status != "accepted" && f.status != "declined"
    requires f.status != "pending" || !({f.from, f.to} == {currentUserId, targetUserId})
    ensures FriendStatus(currentUserId, targetUserId, Some(f)) == None
  {
  }

  /** Seen from the other side, the badge is the same except that a sent request is one that
      waits for a response, and the other way round. */
  lemma FriendStatusFromOtherSide(currentUserId: Id, targetUserId: Id, friendship: Option<Friendship>)
    ensures var mine := FriendStatus(currentUserId, targetUserId, friendship);
            var theirs := FriendStatus(targetUserId, currentUserId, friendship);
      && (mine == Some(RequestSent) <==> theirs == Some(WaitingForResponse))
      && (mine == Some(WaitingForResponse) <==> theirs == Some(RequestSent))
      && (mine == Some(Friend) <==> theirs == Some(Friend))
      && (mine == Some(Declined) <==> theirs == Some(Declined))
      && (mine == None <==> theirs == None)
  {
  }
}
