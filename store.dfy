/**
 * The persistent collections the controllers and the real-time layer read
 * and write: users, friend requests, chats and messages. Each collection is a
 * sequence in the store's natural (insertion) order, which is the order an
 * unsorted `find` returns documents in.
 */
module Store {
  import opened Wrappers

  type UserId = string
  type ChatId = string
  type RequestId = string
  type MessageId = string

  /** A user document; `avatar` stands for its `avatar.url`. */
  datatype User = User(id: UserId, name: string, avatar: string)

  datatype FriendRequest = FriendRequest(id: RequestId, sender: UserId, receiver: UserId)

  /** A chat document; `creator` is absent for the one-to-one chats a friend request creates. */
  datatype Chat = Chat(id: ChatId, name: string, groupChat: bool, creator: Option<UserId>, members: seq<UserId>)

  /** A persisted message; `createdAt` is in milliseconds since the epoch. */
  datatype Message = Message(
    id: MessageId, content: string, attachments: seq<string>,
    sender: UserId, chat: ChatId, createdAt: int)

  /**
   * Why a request handler fails: an `ErrorHandler` with a status code, a
   * JavaScript TypeError (a property read on null or undefined), or an error
   * a library call throws; the handler's wrapper passes the last two on to
   * the error middleware.
   */
  datatype ApiError = HttpError(status: int, message: string) | TypeError | Thrown(message: string)

  predicate Known(users: seq<User>, id: UserId)
  {
    exists i :: 0 <= i < |users| && users[i].id == id
  }

  /** `findById` on the users: the first user with that id. */
  function FindUser(users: seq<User>, id: UserId): (r: Option<User>)
    ensures r.Some? <==> Known(users, id)
    ensures r.Some? ==> r.value in users && r.value.id == id
  {
    if users == [] then None
    else if users[0].id == id then Some(users[0])
    else
      var r := FindUser(users[1..], id);
      assert Known(users, id) ==> users[0].id == id || Known(users[1..], id) by {
        if Known(users, id) {
          var i :| 0 <= i < |users| && users[i].id == id;
          if i > 0 { assert users[1..][i - 1].id == id; }
        }
      }
      r
  }

  /** The ids that name a user of the store, in their order. */
  function KnownIds(users: seq<User>, ids: seq<UserId>): (r: seq<UserId>)
    ensures forall id :: id in r <==> id in ids && Known(users, id)
    ensures |r| <= |ids|
    ensures (forall id :: id in ids ==> Known(users, id)) ==> r == ids
  {
    if ids == [] then []
    else
      var rest := KnownIds(users, ids[1..]);
      assert forall id :: id in ids <==> id == ids[0] || id in ids[1..];
      if Known(users, ids[0]) then [ids[0]] + rest else rest
  }

  /** One id is kept exactly when it resolves. */
  lemma KnownIdsSingle(users: seq<User>, id: UserId)
    ensures KnownIds(users, [id]) == if Known(users, id) then [id] else []
  {
    assert [id][1..] == [];
  }

  /** Filtering distributes over concatenation, so the kept ids keep their relative order. */
  lemma {:induction false} KnownIdsAppend(users: seq<User>, a: seq<UserId>, b: seq<UserId>)
    ensures KnownIds(users, a + b) == KnownIds(users, a) + KnownIds(users, b)
  {
    if a == [] {
      assert a + b == b;
    } else {
      assert (a + b)[0] == a[0];
      assert (a + b)[1..] == a[1..] + b;
      KnownIdsAppend(users, a[1..], b);
    }
  }

  /** The user record of each id, given that every id names a user. */
  function Resolve(users: seq<User>, ids: seq<UserId>): (r: seq<User>)
    requires forall k :: 0 <= k < |ids| ==> Known(users, ids[k])
    ensures |r| == |ids|
    ensures forall k :: 0 <= k < |r| ==> r[k].id == ids[k] && r[k] == FindUser(users, ids[k]).value
  {
    if ids == [] then []
    else
      var rest := Resolve(users, ids[1..]);
      var r := [FindUser(users, ids[0]).value] + rest;
      assert forall k :: 1 <= k < |r| ==> r[k] == rest[k - 1] && ids[k] == ids[1..][k - 1];
      r
  }

  /**
   * `populate` of an array of user references: each id is replaced by its
   * user document, and ids whose document does not exist are dropped.
   */
  function Populate(users: seq<User>, ids: seq<UserId>): (r: seq<User>)
    ensures |r| == |KnownIds(users, ids)|
    ensures forall k :: 0 <= k < |r| ==>
              r[k].id == KnownIds(users, ids)[k] && r[k] == FindUser(users, KnownIds(users, ids)[k]).value
    ensures forall u :: u in r ==> u in users && u.id in ids
    ensures (forall id :: id in ids ==> Known(users, id)) ==>
              |r| == |ids| && forall k :: 0 <= k < |r| ==> r[k].id == ids[k]
  {
    var kept := KnownIds(users, ids);
    assert forall k :: 0 <= k < |kept| ==> kept[k] in kept;
    var r := Resolve(users, kept);
    assert forall u :: u in r ==> u in users && u.id in ids by {
      forall u | u in r
        ensures u in users && u.id in ids
      {
        var k :| 0 <= k < |r| && r[k] == u;
        assert kept[k] in kept;
      }
    }
    r
  }

  /** The one-to-one (non-group) chats `me` is a member of, in store order. */
  function DirectChatsOf(chats: seq<Chat>, me: UserId): (r: seq<Chat>)
    ensures forall c :: c in r <==> c in chats && !c.groupChat && me in c.members
    ensures |r| <= |chats|
  {
    if chats == [] then []
    else
      var rest := DirectChatsOf(chats[1..], me);
      if !chats[0].groupChat && me in chats[0].members then [chats[0]] + rest else rest
  }

  /** `findById` on the chats. */
  function FindChat(chats: seq<Chat>, id: ChatId): (r: Option<Chat>)
    ensures r.Some? <==> exists i :: 0 <= i < |chats| && chats[i].id == id
    ensures r.Some? ==> r.value in chats && r.value.id == id
  {
    if chats == [] then None
    else if chats[0].id == id then Some(chats[0])
    else
      var r := FindChat(chats[1..], id);
      assert (exists i :: 0 <= i < |chats| && chats[i].id == id) ==>
               chats[0].id == id || exists i :: 0 <= i < |chats[1..]| && chats[1..][i].id == id by {
        if exists i :: 0 <= i < |chats| && chats[i].id == id {
          var i :| 0 <= i < |chats| && chats[i].id == id;
          if i > 0 { assert chats[1..][i - 1].id == id; }
        }
      }
      r
  }
}
