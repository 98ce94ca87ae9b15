/** The friend-request handlers: sending, accepting and declining a
    request, as pushes onto and filters of the three id lists of two user
    records. In each step `current` is the requesting user and `other`
    the user named in the route. */
module FriendController {
  import opened Common
  import opened UserModel

  datatype FriendOutcome =
    | Ok
    | NotFound        // 404: the named user does not exist
    | AlreadyPending  // 400: already friends, or the request is already pending
    | NoRequest       // 400: there is no pending request from the named user
    | ServerError     // 500: a missing record was dereferenced

  /** `ids.filter(id => id !== x)`. */
  function Without(ids: seq<ObjectId>, x: ObjectId): (r: seq<ObjectId>)
    ensures x !in r
    ensures forall y :: y in r <==> y in ids && y != x
    ensures |r| <= |ids|
    ensures x !in ids ==> r == ids
  {
    if ids == [] then []
    else if ids[0] == x then Without(ids[1..], x)
    else [ids[0]] + Without(ids[1..], x)
  }

  /** Filtering out an id just appended gives the list without it. */
  lemma {:induction false} WithoutAppended(ids: seq<ObjectId>, x: ObjectId)
    ensures Without(ids + [x], x) == Without(ids, x)
  {
    if ids != [] {
      assert (ids + [x])[1..] == ids[1..] + [x];
      WithoutAppended(ids[1..], x);
    }
  }

  /** Both the new lists and the response of a friend handler. */
  datatype FriendStep = FriendStep(out: FriendOutcome, current: UserState, other: UserState)

  /** `sendFriendRequest` from `current` to `other`, once both records
      are found. */
  function SendStep(current: UserState, currentId: ObjectId, other: UserState, otherId: ObjectId): FriendStep
  {
    if otherId in current.friends || currentId in other.friendRequestsReceived then
      FriendStep(AlreadyPending, current, other)
    else
      FriendStep(Ok, current.(friendRequestsSent := current.friendRequestsSent + [otherId]),
                 other.(friendRequestsReceived := other.friendRequestsReceived + [currentId]))
  }

  /** `acceptFriendRequest` by `current` of a request from `other`. */
  function AcceptStep(current: UserState, currentId: ObjectId, other: UserState, otherId: ObjectId): FriendStep
  {
    if otherId !in current.friendRequestsReceived then
      FriendStep(NoRequest, current, other)
    else
      FriendStep(Ok,
                 current.(friends := current.friends + [otherId],
                          friendRequestsReceived := Without(current.friendRequestsReceived, otherId)),
                 other.(friends := other.friends + [currentId],
                        friendRequestsSent := Without(other.friendRequestsSent, currentId)))
  }

  /** `declineFriendRequest`: remove the pair from all four request lists,
      declining a request received and cancelling one sent alike. */
  function DeclineStep(current: UserState, currentId: ObjectId, other: UserState, otherId: ObjectId): FriendStep
  {
    FriendStep(Ok,
               current.(friendRequestsReceived := Without(current.friendRequestsReceived, otherId),
                        friendRequestsSent := Without(current.friendRequestsSent, otherId)),
               other.(friendRequestsSent := Without(other.friendRequestsSent, currentId),
                      friendRequestsReceived := Without(other.friendRequestsReceived, currentId)))
  }

  /** A request is sent exactly when the two are not friends yet and the
      request is not already pending; a sent request appends exactly one
      id to the sender's sent list and one to the recipient's received
      list and leaves everything else alone; a rejected one changes
      nothing. */
  lemma SendSpec(current: UserState, currentId: ObjectId, other: UserState, otherId: ObjectId)
    ensures var r := SendStep(current, currentId, other, otherId);
            && (r.out == Ok || r.out == AlreadyPending)
            && (r.out == Ok <==> otherId !in current.friends && currentId !in other.friendRequestsReceived)
            && (r.out == Ok ==>
                  && r.current.friendRequestsSent == current.friendRequestsSent + [otherId]
                  && r.other.friendRequestsReceived == other.friendRequestsReceived + [currentId]
                  && r.current.(friendRequestsSent := current.friendRequestsSent) == current
                  && r.other.(friendRequestsReceived := other.friendRequestsReceived) == other)
            && (r.out != Ok ==> r.current == current && r.other == other)
  {
  }

  /** Sending the same request again is rejected. */
  lemma SendTwiceRejected(current: UserState, currentId: ObjectId, other: UserState, otherId: ObjectId)
    requires SendStep(current, currentId, other, otherId).out == Ok
    ensures var r := SendStep(current, currentId, other, otherId);
            SendStep(r.current, currentId, r.other, otherId).out == AlreadyPending
  {
  }

  /** A request is accepted exactly when it is pending; then each user is
      appended to the other's friends, every copy of the request is
      removed from the accepting user's received list and from the
      sender's sent list, and the other requests stay; nothing else
      changes. */
  lemma AcceptSpec(current: UserState, currentId: ObjectId, other: UserState, otherId: ObjectId)
    ensures var r := AcceptStep(current, currentId, other, otherId);
            && (r.out == Ok || r.out == NoRequest)
            && (r.out == Ok <==> otherId in current.friendRequestsReceived)
            && (r.out == Ok ==>
                  && r.current.friends == current.friends + [otherId]
                  && r.other.friends == other.friends + [currentId]
                  && otherId !in r.current.friendRequestsReceived
                  && currentId !in r.other.friendRequestsSent
                  && (forall y :: y != otherId ==>
                        (y in r.current.friendRequestsReceived <==> y in current.friendRequestsReceived))
                  && (forall y :: y != currentId ==>
                        (y in r.other.friendRequestsSent <==> y in other.friendRequestsSent))
                  && r.current.friendRequestsSent == current.friendRequestsSent
                  && r.other.friendRequestsReceived == other.friendRequestsReceived)
            && (r.out != Ok ==> r.current == current && r.other == other)
  {
  }

  /** Declining removes the pair in both directions from the four
      request lists, keeps every other request and both friends lists,
      and a second decline changes nothing more. */
  lemma DeclineSpec(current: UserState, currentId: ObjectId, other: UserState, otherId: ObjectId)
    ensures var r := DeclineStep(current, currentId, other, otherId);
            && r.out == Ok
            && otherId !in r.current.friendRequestsReceived && otherId !in r.current.friendRequestsSent
            && currentId !in r.other.friendRequestsSent && currentId !in r.other.friendRequestsReceived
            && (forall y :: y != otherId ==>
                  && (y in r.current.friendRequestsReceived <==> y in current.friendRequestsReceived)
                  && (y in r.current.friendRequestsSent <==> y in current.friendRequestsSent))
            && (forall y :: y != currentId ==>
                  && (y in r.other.friendRequestsReceived <==> y in other.friendRequestsReceived)
                  && (y in r.other.friendRequestsSent <==> y in other.friendRequestsSent))
            && r.current.friends == current.friends && r.other.friends == other.friends
            && DeclineStep(r.current, currentId, r.other, otherId) == r
  {
  }

  /** The two users' lists agree about each other: a request is in the
      sender's sent list exactly when it is in the recipient's received
      list, in both directions, and friendship is mutual. */
  predicate PairConsistent(a: UserState, aId: ObjectId, b: UserState, bId: ObjectId)
  {
    && (bId in a.friendRequestsSent <==> aId in b.friendRequestsReceived)
    && (aId in b.friendRequestsSent <==> bId in a.friendRequestsReceived)
    && (bId in a.friends <==> aId in b.friends)
  }

  /** Each handler keeps the two users' lists in agreement. */
  lemma StepsKeepPairConsistent(current: UserState, currentId: ObjectId, other: UserState, otherId: ObjectId)
    requires PairConsistent(current, currentId, other, otherId)
    ensures var r := SendStep(current, currentId, other, otherId);
            PairConsistent(r.current, currentId, r.other, otherId)
    ensures var r := AcceptStep(current, currentId, other, otherId);
            PairConsistent(r.current, currentId, r.other, otherId)
    ensures var r := DeclineStep(current, currentId, other, otherId);
            PairConsistent(r.current, currentId, r.other, otherId)
  {
  }

  /** A sent request that the recipient accepts makes the two mutual
      friends and leaves no request pending from the sender. */
  lemma SendThenAccept(sender: UserState, senderId: ObjectId, recipient: UserState, recipientId: ObjectId)
    requires SendStep(sender, senderId, recipient, recipientId).out == Ok
    ensures var s := SendStep(sender, senderId, recipient, recipientId);
            var a := AcceptStep(s.other, recipientId, s.current, senderId);
            && a.out == Ok
            && senderId in a.current.friends && recipientId in a.other.friends
            && senderId !in a.current.friendRequestsReceived && recipientId !in a.other.friendRequestsSent
  {
  }

  /** Declining a request just sent restores both users' request lists,
      when neither had a request from the other before. */
  lemma SendThenDecline(sender: UserState, senderId: ObjectId, recipient: UserState, recipientId: ObjectId)
    requires SendStep(sender, senderId, recipient, recipientId).out == Ok
    requires recipientId !in sender.friendRequestsSent && recipientId !in sender.friendRequestsReceived
    requires senderId !in recipient.friendRequestsSent && senderId !in recipient.friendRequestsReceived
    ensures var s := SendStep(sender, senderId, recipient, recipientId);
            var d := DeclineStep(s.other, recipientId, s.current, senderId);
            d.current == recipient && d.other == sender
  {
    WithoutAppended(sender.friendRequestsSent, recipientId);
    WithoutAppended(recipient.friendRequestsReceived, senderId);
  }

  /** `sendFriendRequest`: `other` is the record loaded for the route's
      id and `current` the one loaded for the requester, two separate
      objects. A missing recipient is a 404; a missing sender fails when
      dereferenced. */
  method SendFriendRequest(current: User?, other: User?) returns (out: FriendOutcome)
    requires current != null && other != null ==> current != other
    modifies current, other
    ensures other == null <==> out == NotFound
    ensures other != null && current == null <==> out == ServerError
    ensures current != null && other != null ==>
              FriendStep(out, current.State(), other.State()) ==
              SendStep(old(current.State()), current.id, old(other.State()), other.id)
    ensures out != Ok ==> (current != null ==> unchanged(current)) && (other != null ==> unchanged(other))
  {
    if other == null {
      return NotFound;
    }
    if current == null {
      return ServerError;
    }
    if other.id in current.friends || current.id in other.friendRequestsReceived {
      return AlreadyPending;
    }
    other.friendRequestsReceived := other.friendRequestsReceived + [current.id];
    current.friendRequestsSent := current.friendRequestsSent + [other.id];
    out := Ok;
  }

  /** `acceptFriendRequest`: `other` is the sender named in the route and
      `current` the accepting user. A missing sender is reported as "no
      request"; a missing accepting user fails when dereferenced. */
  method AcceptFriendRequest(current: User?, other: User?) returns (out: FriendOutcome)
    requires current != null && other != null ==> current != other
    modifies current, other
    ensures other == null ==> out == NoRequest
    ensures other != null && current == null <==> out == ServerError
    ensures current != null && other != null ==>
              FriendStep(out, current.State(), other.State()) ==
              AcceptStep(old(current.State()), current.id, old(other.State()), other.id)
    ensures out != Ok ==> (current != null ==> unchanged(current)) && (other != null ==> unchanged(other))
  {
    if other == null {
      return NoRequest;
    }
    if current == null {
      return ServerError;
    }
    if other.id !in current.friendRequestsReceived {
      return NoRequest;
    }
    current.friends := current.friends + [other.id];
    other.friends := other.friends + [current.id];
    current.friendRequestsReceived := Without(current.friendRequestsReceived, other.id);
    other.friendRequestsSent := Without(other.friendRequestsSent, current.id);
    out := Ok;
  }

  /** `declineFriendRequest`: either record missing fails when
      dereferenced, before anything is saved. */
  method DeclineFriendRequest(current: User?, other: User?) returns (out: FriendOutcome)
    requires current != null && other != null ==> current != other
    modifies current, other
    ensures current == null || other == null <==> out == ServerError
    ensures current != null && other != null ==>
              FriendStep(out, current.State(), other.State()) ==
              DeclineStep(old(current.State()), current.id, old(other.State()), other.id)
    ensures out != Ok ==> (current != null ==> unchanged(current)) && (other != null ==> unchanged(other))
  {
    if current == null || other == null {
      return ServerError;
    }
    current.friendRequestsReceived := Without(current.friendRequestsReceived, other.id);
    other.friendRequestsSent := Without(other.friendRequestsSent, current.id);
    current.friendRequestsSent := Without(current.friendRequestsSent, other.id);
    other.friendRequestsReceived := Without(other.friendRequestsReceived, current.id);
    out := Ok;
  }
}
