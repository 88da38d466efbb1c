/**
 * The friend-request workflow and the friend and search projections of
 * controllers/user.controller.js, over the store's users, pending requests
 * and chats.
 */
module Friends {
  import opened Wrappers
  import opened Events
  import opened Store

  /** `emitEvent(req, kind, users)`: an event addressed to `users`, delivered as `Realtime.NoticeEffect` describes. */
  datatype Notice = Notice(kind: EventKind, users: seq<UserId>)

  /** A successful reply: its status code, its message, the event it emits, if any, and the `senderId` it returns, if any. */
  datatype Reply = Reply(status: int, message: string, notice: Option<Notice>, senderId: Option<UserId>)

  /** `r` is a request from `a` to `b` or from `b` to `a`. */
  predicate Links(r: FriendRequest, a: UserId, b: UserId)
  {
    (r.sender == a && r.receiver == b) || (r.sender == b && r.receiver == a)
  }

  /** The `Request.findOne` with `$or` over both directions finds something. */
  predicate PendingBetween(requests: seq<FriendRequest>, a: UserId, b: UserId)
  {
    exists q :: q in requests && Links(q, a, b)
  }

  predicate UniqueRequestIds(requests: seq<FriendRequest>)
  {
    forall i, j :: 0 <= i < j < |requests| ==> requests[i].id != requests[j].id
  }

  /** `Request.findById`. */
  function FindRequest(requests: seq<FriendRequest>, id: RequestId): (r: Option<FriendRequest>)
    ensures r.Some? <==> exists q :: q in requests && q.id == id
    ensures r.Some? ==> r.value in requests && r.value.id == id
  {
    if requests == [] then None
    else if requests[0].id == id then Some(requests[0])
    else
      var r := FindRequest(requests[1..], id);
      assert forall q :: q in requests <==> q == requests[0] || q in requests[1..];
      r
  }

  /** `request.deleteOne()`: the request with that id leaves, the others keep their order. */
  function DropRequest(requests: seq<FriendRequest>, id: RequestId): (r: seq<FriendRequest>)
    ensures forall q :: q in r <==> q in requests && q.id != id
    ensures UniqueRequestIds(requests) ==> UniqueRequestIds(r)
    ensures |r| <= |requests|
  {
    if requests == [] then []
    else
      var rest := DropRequest(requests[1..], id);
      if requests[0].id == id then rest
      else
        assert UniqueRequestIds(requests) ==> forall q :: q in rest ==> q.id != requests[0].id by {
          if UniqueRequestIds(requests) {
            forall q | q in rest ensures q.id != requests[0].id {
              var k :| 0 <= k < |requests[1..]| && requests[1..][k] == q;
              assert requests[k + 1] == q;
            }
          }
        }
        [requests[0]] + rest
  }

  /** The name `populate("sender", "name")` yields for a user the store knows. */
  function NameOf(users: seq<User>, id: UserId): string
    requires Known(users, id)
  {
    FindUser(users, id).value.name
  }

  /** The one-to-one chat an accepted request creates. */
  function FriendChat(users: seq<User>, id: ChatId, q: FriendRequest): (c: Chat)
    requires Known(users, q.sender) && Known(users, q.receiver)
    ensures !c.groupChat && c.creator.None?
    ensures c.members == [q.sender, q.receiver]
    ensures c.name == NameOf(users, q.sender) + "-" + NameOf(users, q.receiver)
  {
    Chat(id, NameOf(users, q.sender) + "-" + NameOf(users, q.receiver), false, None, [q.sender, q.receiver])
  }

  class FriendStore {
    var users: seq<User>
    var requests: seq<FriendRequest>
    var chats: seq<Chat>

    /**
     * Every request is between users the store knows, no two requests have
     * the same id, there is at most one pending request between any two
     * users, whichever sent it, and no two chats have the same id.
     */
    ghost predicate Valid()
      reads this
    {
      && (forall q :: q in requests ==> Known(users, q.sender) && Known(users, q.receiver))
      && UniqueRequestIds(requests)
      && (forall q, q' :: q in requests && q' in requests && Links(q, q'.sender, q'.receiver) ==> q == q')
      && (forall i, j :: 0 <= i < j < |chats| ==> chats[i].id != chats[j].id)
    }

    constructor (users: seq<User>)
      ensures Valid()
      ensures this.users == users && requests == [] && chats == []
    {
      this.users, requests, chats := users, [], [];
    }

    /**
     * `sendFriendRequest` from the signed-in user `me` to `userId`.
     * `newId` is the id the store gives the new request.
     */
    method SendFriendRequest(me: UserId, userId: UserId, newId: RequestId) returns (r: Result<Reply, ApiError>)
      requires Valid()
      requires forall q :: q in requests ==> q.id != newId
      modifies this`requests
      ensures Valid()
      ensures !Known(users, me) || !Known(users, userId) ==>
                r == Failure(HttpError(404, "User not found")) && requests == old(requests)
      ensures Known(users, me) && Known(users, userId) && PendingBetween(old(requests), me, userId) ==>
                r == Failure(HttpError(400, "Request already sent!")) && requests == old(requests)
      ensures Known(users, me) && Known(users, userId) && !PendingBetween(old(requests), me, userId) ==>
                && r == Success(Reply(201, "Friend Request sent sucessfully!!", Some(Notice(NewRequestAlert, [userId])), None))
                && requests == old(requests) + [FriendRequest(newId, me, userId)]
    {
      if !Known(users, me) || !Known(users, userId) {
        return Failure(HttpError(404, "User not found"));
      }
      if PendingBetween(requests, me, userId) {
        return Failure(HttpError(400, "Request already sent!"));
      }
      var q := FriendRequest(newId, me, userId);
      assert forall q' :: q' in requests ==> !Links(q', q.sender, q.receiver);
      requests := requests + [q];
      r := Success(Reply(201, "Friend Request sent sucessfully!!", Some(Notice(NewRequestAlert, [userId])), None));
    }

    /**
     * `acceptFriendRequest` by the signed-in user `me`. `accept` is the
     * truthiness of the body's `accept`; `newChatId` is the id the store
     * gives the chat an acceptance creates.
     */
    method AcceptFriendRequest(me: UserId, requestId: RequestId, accept: bool, newChatId: ChatId)
      returns (r: Result<Reply, ApiError>)
      requires Valid()
      requires forall c :: c in chats ==> c.id != newChatId
      modifies this`requests, this`chats
      ensures Valid()
      ensures FindRequest(old(requests), requestId).None? ==>
                r == Failure(HttpError(404, "Request not found")) && requests == old(requests) && chats == old(chats)
      ensures var q := FindRequest(old(requests), requestId);
              q.Some? && q.value.receiver != me ==>
                && r == Failure(HttpError(401, "You are not authorized to accept the request"))
                && requests == old(requests) && chats == old(chats)
      ensures var q := FindRequest(old(requests), requestId);
              q.Some? && q.value.receiver == me && !accept ==>
                && r == Success(Reply(200, "Friend request Rejected", None, None))
                && requests == DropRequest(old(requests), requestId) && chats == old(chats)
      ensures var q := FindRequest(old(requests), requestId);
              q.Some? && q.value.receiver == me && accept ==>
                && Known(users, q.value.sender) && Known(users, q.value.receiver)
                && r == Success(Reply(201, "Friend Request sent sucessfully!!",
                                      Some(Notice(RefetchChats, [q.value.sender, q.value.receiver])), Some(q.value.sender)))
                && requests == DropRequest(old(requests), requestId)
                && chats == old(chats) + [FriendChat(users, newChatId, q.value)]
    {
      var found := FindRequest(requests, requestId);
      if found.None? {
        return Failure(HttpError(404, "Request not found"));
      }
      var q := found.value;
      if q.receiver != me {
        return Failure(HttpError(401, "You are not authorized to accept the request"));
      }
      if !accept {
        requests := DropRequest(requests, requestId);
        return Success(Reply(200, "Friend request Rejected", None, None));
      }
      chats := chats + [FriendChat(users, newChatId, q)];
      requests := DropRequest(requests, requestId);
      r := Success(Reply(201, "Friend Request sent sucessfully!!", Some(Notice(RefetchChats, [q.sender, q.receiver])), Some(q.sender)));
    }
  }

  /** A friend as `getMyFriends` lists it. */
  datatype Friend = Friend(id: UserId, name: string, avatar: string)

  /**
   * `getOtherMember` (lib/helper.js, not part of this model), as assumed
   * here: the first populated member that is not `me`.
   */
  function OtherMember(members: seq<User>, me: UserId): (r: Option<User>)
    ensures r.Some? ==> r.value in members && r.value.id != me
    ensures r.None? <==> forall u :: u in members ==> u.id == me
  {
    if members == [] then None
    else if members[0].id != me then Some(members[0])
    else OtherMember(members[1..], me)
  }

  /** `id` is a member other than `me` of one of the chats `cs`. */
  predicate SharesChat(cs: seq<Chat>, me: UserId, id: UserId)
  {
    id != me && exists c :: c in cs && id in c.members
  }

  /** `populate("members")` over a list of chats: each chat's member records, as `Populate` resolves them. */
  function PopulateAll(users: seq<User>, cs: seq<Chat>): (r: seq<seq<User>>)
    ensures |r| == |cs|
    ensures forall k :: 0 <= k < |r| ==> r[k] == Populate(users, cs[k].members)
  {
    if cs == [] then []
    else [Populate(users, cs[0].members)] + PopulateAll(users, cs[1..])
  }

  /**
   * The `map` over the populated chats: the other member of each, as a
   * friend record; None when one has no other member, where the source
   * reads `_id` of undefined.
   */
  function FriendsIn(populated: seq<seq<User>>, me: UserId): (r: Option<seq<Friend>>)
    ensures r.Some? <==> forall k :: 0 <= k < |populated| ==> OtherMember(populated[k], me).Some?
    ensures r.Some? ==> |r.value| == |populated|
    ensures r.Some? ==> forall k :: 0 <= k < |r.value| ==>
              var u := OtherMember(populated[k], me).value;
              r.value[k] == Friend(u.id, u.name, u.avatar)
  {
    if populated == [] then Some([])
    else
      assert forall k :: 1 <= k < |populated| ==> populated[k] == populated[1..][k - 1];
      match OtherMember(populated[0], me)
      case None => None
      case Some(u) =>
        match FriendsIn(populated[1..], me)
        case None => None
        case Some(rest) =>
          var friends := [Friend(u.id, u.name, u.avatar)] + rest;
          assert forall k :: 1 <= k < |friends| ==> friends[k] == rest[k - 1];
          Some(friends)
  }

  /** The other populated member of a chat is a known user, other than `me`, listed in the chat. */
  lemma OtherPopulatedMember(users: seq<User>, c: Chat, me: UserId)
    ensures var o := OtherMember(Populate(users, c.members), me);
            o.Some? ==> o.value.id in c.members && o.value.id != me && Known(users, o.value.id)
  {
    var o := OtherMember(Populate(users, c.members), me);
    if o.Some? {
      assert o.value in users;
      var i :| 0 <= i < |users| && users[i] == o.value;
    }
  }

  /**
   * Over `me`'s chats, the listing fails exactly when some chat has no
   * other member; otherwise the k-th friend is a known user other than
   * `me` who is a member of the k-th chat, and so shares a chat with `me`.
   */
  lemma FriendsInChats(users: seq<User>, direct: seq<Chat>, me: UserId)
    ensures var r := FriendsIn(PopulateAll(users, direct), me);
            && (r.Some? <==> forall c :: c in direct ==> OtherMember(Populate(users, c.members), me).Some?)
            && (r.Some? ==> |r.value| == |direct|)
            && (r.Some? ==> forall k :: 0 <= k < |r.value| ==>
                  r.value[k].id in direct[k].members && r.value[k].id != me && Known(users, r.value[k].id))
            && (r.Some? ==> forall f :: f in r.value ==> SharesChat(direct, me, f.id))
  {
    var populated := PopulateAll(users, direct);
    var r := FriendsIn(populated, me);
    assert (forall c :: c in direct ==> OtherMember(Populate(users, c.members), me).Some?) <==>
           (forall k :: 0 <= k < |populated| ==> OtherMember(populated[k], me).Some?) by {
      if forall k :: 0 <= k < |populated| ==> OtherMember(populated[k], me).Some? {
        forall c | c in direct
          ensures OtherMember(Populate(users, c.members), me).Some?
        {
          var k :| 0 <= k < |direct| && direct[k] == c;
          assert populated[k] == Populate(users, c.members);
        }
      }
    }
    if r.Some? {
      forall k | 0 <= k < |r.value|
        ensures r.value[k].id in direct[k].members && r.value[k].id != me && Known(users, r.value[k].id)
      {
        OtherPopulatedMember(users, direct[k], me);
      }
      forall f | f in r.value
        ensures SharesChat(direct, me, f.id)
      {
        var k :| 0 <= k < |r.value| && r.value[k] == f;
        OtherPopulatedMember(users, direct[k], me);
        assert direct[k] in direct;
      }
    }
  }

  /** The friends whose id is not among `members`, in their order. */
  function NotMembers(friends: seq<Friend>, members: seq<UserId>): (r: seq<Friend>)
    ensures forall f :: f in r <==> f in friends && f.id !in members
    ensures |r| <= |friends|
  {
    if friends == [] then []
    else
      var rest := NotMembers(friends[1..], members);
      assert forall f :: f in friends <==> f == friends[0] || f in friends[1..];
      if friends[0].id !in members then [friends[0]] + rest else rest
  }

  /**
   * `getMyFriends`: the other member of each of `me`'s one-to-one chats;
   * with a `chat_id`, only those not already members of that chat. An
   * empty `chat_id` is falsy and counts as none. The chat is looked up
   * whatever the friends are, but its members are read only while filtering
   * a friend, so a missing chat fails only when there is a friend to filter.
   */
  function MyFriends(users: seq<User>, chats: seq<Chat>, me: UserId, chatId: Option<ChatId>): (r: Result<seq<Friend>, ApiError>)
    ensures r.Failure? ==> r.error == TypeError
    ensures r.Success? ==> forall f :: f in r.value ==> SharesChat(DirectChatsOf(chats, me), me, f.id)
    ensures FriendsIn(PopulateAll(users, DirectChatsOf(chats, me)), me).None? ==> r.Failure?
    ensures chatId.None? || chatId == Some("") ==>
              var found := FriendsIn(PopulateAll(users, DirectChatsOf(chats, me)), me);
              found.Some? ==> r == Success(found.value)
    ensures chatId.Some? && chatId != Some("") && FriendsIn(PopulateAll(users, DirectChatsOf(chats, me)), me).Some? ==>
              var friends := FriendsIn(PopulateAll(users, DirectChatsOf(chats, me)), me).value;
              && (friends == [] ==> r == Success([]))
              && (friends != [] && FindChat(chats, chatId.value).None? ==> r.Failure?)
              && (FindChat(chats, chatId.value).Some? ==> r == Success(NotMembers(friends, FindChat(chats, chatId.value).value.members)))
  {
    var direct := DirectChatsOf(chats, me);
    FriendsInChats(users, direct, me);
    match FriendsIn(PopulateAll(users, direct), me)
    case None => Failure(TypeError)
    case Some(friends) =>
      if chatId.None? || chatId.value == "" then Success(friends)
      else
        match FindChat(chats, chatId.value)
        case None => if friends == [] then Success([]) else Failure(TypeError)
        case Some(target) => Success(NotMembers(friends, target.members))
  }

  /** A user as `searchUser` lists it. */
  datatype UserView = UserView(id: UserId, name: string, avatar: string)

  /** The members of all the given chats, flattened in order. */
  function MembersOf(cs: seq<Chat>): (r: seq<UserId>)
    ensures forall id :: id in r <==> exists c :: c in cs && id in c.members
  {
    if cs == [] then []
    else
      assert forall c :: c in cs <==> c == cs[0] || c in cs[1..];
      cs[0].members + MembersOf(cs[1..])
  }

  /** The users whose id is not in `excluded` and whose name `matches` accepts, in store order. */
  function UsersOutside(users: seq<User>, excluded: seq<UserId>, matches: string -> bool): (r: seq<UserView>)
    ensures forall v :: v in r <==>
              exists u :: u in users && u.id !in excluded && matches(u.name) && v == UserView(u.id, u.name, u.avatar)
  {
    if users == [] then []
    else
      var rest := UsersOutside(users[1..], excluded, matches);
      assert forall u :: u in users <==> u == users[0] || u in users[1..];
      var u := users[0];
      if u.id !in excluded && matches(u.name) then [UserView(u.id, u.name, u.avatar)] + rest else rest
  }

  /**
   * `searchUser`: the users outside all of `me`'s one-to-one chats whose
   * name matches. `matches` stands for the case-insensitive `$regex` match
   * against the query's `name`, which is not modelled.
   */
  function SearchUser(users: seq<User>, chats: seq<Chat>, me: UserId, matches: string -> bool): (r: seq<UserView>)
    ensures forall v :: v in r <==>
              exists u :: && u in users && matches(u.name) && v == UserView(u.id, u.name, u.avatar)
                           && forall c :: c in DirectChatsOf(chats, me) ==> u.id !in c.members
    ensures forall v, c :: v in r && c in DirectChatsOf(chats, me) ==> v.id !in c.members
  {
    UsersOutside(users, MembersOf(DirectChatsOf(chats, me)), matches)
  }

  /** The caller is listed by their own search exactly when they have no one-to-one chat. */
  lemma SearchListsCallerIffNoDirectChat(users: seq<User>, chats: seq<Chat>, me: User, matches: string -> bool)
    requires me in users && matches(me.name)
    ensures (UserView(me.id, me.name, me.avatar) in SearchUser(users, chats, me.id, matches))
              <==> DirectChatsOf(chats, me.id) == []
  {
    var direct := DirectChatsOf(chats, me.id);
    if direct != [] {
      assert direct[0] in direct;
      assert me.id in MembersOf(direct);
    } else {
      assert me.id !in MembersOf(direct);
    }
  }

  /**
   * A user asking for a friendship with themselves: the search lists them
   * while they have no one-to-one chat, the request and its acceptance
   * succeed, and the chat they create has no other member, so listing their
   * friends fails afterwards.
   */
  method SelfRequestScenario(me: User)
  {
    var store := new FriendStore([me]);
    assert Known(store.users, me.id) by { assert store.users[0].id == me.id; }
    var sent := store.SendFriendRequest(me.id, me.id, "r1");
    assert sent.Success?;
    var accepted := store.AcceptFriendRequest(me.id, "r1", true, "c1");
    assert accepted.Success?;
    assert store.chats == [Chat("c1", me.name + "-" + me.name, false, None, [me.id, me.id])];
    assert DirectChatsOf(store.chats, me.id) == store.chats;
    assert MyFriends(store.users, store.chats, me.id, None) == Failure(TypeError);
  }
}
