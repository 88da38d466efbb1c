/**
 * The real-time layer of app.js: the process-wide table from user id to
 * socket id, and the connection, online-announcement, new-message, typing
 * and disconnect handlers that read and write it.
 *
 * Emits and database writes are recorded, in the order they happen, in one
 * trace of effects. The socket transport, the handshake's cookie parsing and
 * the token check are outside the model: a connection arrives with the
 * result of the token check already applied.
 */
module Realtime {
  import opened Wrappers
  import opened Events
  import opened Store

  type SocketId = string

  /** What a connected socket knows about its user (`socket.user`). */
  datatype Session = Session(socket: SocketId, user: User)

  datatype SenderRef = SenderRef(id: UserId, name: string)

  /** The record pushed to clients: it has a generated id, the sender's name and a timestamp. */
  datatype LiveMessage = LiveMessage(content: string, id: string, sender: SenderRef, chat: ChatId, createdAt: string)

  /** The record handed to the message collection. */
  datatype StoredMessage = StoredMessage(content: string, sender: UserId, chat: ChatId)

  datatype Payload =
    | OnlineUsers(users: seq<UserId>)
    | ChatMessage(chatId: ChatId, message: LiveMessage)
    | ChatRef(chatId: ChatId)
    | NoData   // `emitEvent` called without its `data` argument

  /**
   * Who an emit reaches. `io.emit` reaches every client. An emit through
   * `io.to(rooms)` or `socket.to(rooms)` reaches the sockets of those rooms;
   * with no room at all socket.io broadcasts instead, to every client, or,
   * through `socket.to`, to every client but the emitting socket.
   */
  datatype Audience = Everyone | EveryoneBut(excluded: SocketId) | Sockets(targets: set<SocketId>)

  predicate Reaches(a: Audience, s: SocketId)
  {
    match a
    case Everyone => true
    case EveryoneBut(x) => s != x
    case Sockets(targets) => s in targets
  }

  datatype Effect =
    | Emitted(kind: EventKind, audience: Audience, payload: Payload)
    | DbWrite(record: StoredMessage, ok: bool)   // ok == false: the failure is logged and swallowed

  predicate NoDuplicates<T(==)>(s: seq<T>)
  {
    forall i, j :: 0 <= i < j < |s| ==> s[i] != s[j]
  }

  /**
   * `getSockets` (lib/helper.js, not part of this model), as assumed here:
   * each listed member that has an entry contributes that entry's socket,
   * and members without an entry contribute nothing.
   */
  function GetSockets(table: map<UserId, SocketId>, members: seq<UserId>): (r: set<SocketId>)
    ensures forall s :: s in r <==> exists m :: m in members && m in table && table[m] == s
  {
    if members == [] then {}
    else
      var rest := GetSockets(table, members[1..]);
      assert forall m :: m in members <==> m == members[0] || m in members[1..];
      if members[0] in table then {table[members[0]]} + rest else rest
  }

  /** `Map.delete` seen through the key order: `u` goes, the other keys keep their order. */
  function Without(order: seq<UserId>, u: UserId): (r: seq<UserId>)
    ensures u !in r
    ensures forall x :: x in r <==> x in order && x != u
    ensures NoDuplicates(order) ==> NoDuplicates(r)
    ensures u !in order ==> r == order
  {
    if order == [] then []
    else
      var rest := Without(order[1..], u);
      assert NoDuplicates(order) ==> order[0] !in order[1..] && NoDuplicates(order[1..]);
      if order[0] == u then rest else [order[0]] + rest
  }

  /** The real-time record of a new message (app.js, `messageForRealTime`). */
  function LiveRecord(user: User, chatId: ChatId, content: string, freshId: string, now: string): LiveMessage
  {
    LiveMessage(content, freshId, SenderRef(user.id, user.name), chatId, now)
  }

  /** The database record of a new message (app.js, `messageForDB`). */
  function StoredRecord(user: User, chatId: ChatId, content: string): StoredMessage
  {
    StoredMessage(content, user.id, chatId)
  }

  /** The two records agree on content, sender and chat, whatever id and timestamp are generated. */
  lemma RecordsAgree(user: User, chatId: ChatId, content: string, freshId: string, now: string)
    ensures var live, stored := LiveRecord(user, chatId, content, freshId, now), StoredRecord(user, chatId, content);
            live.content == stored.content && live.sender.id == stored.sender && live.chat == stored.chat
  {
  }

  /** No listed member has an entry in the table, so `getSockets` names no room. */
  predicate NoneListed(table: map<UserId, SocketId>, members: seq<UserId>)
  {
    forall m :: m in members ==> m !in table
  }

  /**
   * The effects of one new-message event: the message and the alert to the
   * members' sockets, then one write attempt whose outcome `writeOk` the
   * store decides. When no listed member is connected, `io.to` is given no
   * room and both emits reach every client.
   */
  function NewMessageEffects(table: map<UserId, SocketId>, user: User, chatId: ChatId, content: string,
                             members: seq<UserId>, freshId: string, now: string, writeOk: bool): (r: seq<Effect>)
    ensures |r| == 3
    ensures r[0].Emitted? && r[0].kind == NewMessage && r[1].Emitted? && r[1].kind == NewMessageAlert
    ensures r[0].audience == r[1].audience && !r[0].audience.EveryoneBut?
    ensures forall s :: Reaches(r[0].audience, s) <==>
              NoneListed(table, members) || exists m :: m in members && m in table && table[m] == s
    ensures r[0].audience == Everyone <==> NoneListed(table, members)
    ensures members == [] ==> r[0].audience == Everyone
    ensures user.id in members && user.id in table ==> Reaches(r[0].audience, table[user.id])
    ensures r[0].payload == ChatMessage(chatId, LiveRecord(user, chatId, content, freshId, now))
    ensures r[1].payload == ChatRef(chatId)
    ensures r[2] == DbWrite(StoredRecord(user, chatId, content), writeOk)
  {
    var rooms := GetSockets(table, members);
    assert rooms == {} <==> NoneListed(table, members) by {
      if !NoneListed(table, members) {
        var m :| m in members && m in table;
        assert table[m] in rooms;
      }
    }
    var audience := if rooms == {} then Everyone else Sockets(rooms);
    [ Emitted(NewMessage, audience, ChatMessage(chatId, LiveRecord(user, chatId, content, freshId, now))),
      Emitted(NewMessageAlert, audience, ChatRef(chatId)),
      DbWrite(StoredRecord(user, chatId, content), writeOk) ]
  }

  /**
   * The effect of a typing event, relayed with `socket.to`: it reaches the
   * members' sockets except the one the event came from, or, when no listed
   * member is connected, every client but that one.
   */
  function TypingEffect(table: map<UserId, SocketId>, from: SocketId, kind: EventKind,
                        chatId: ChatId, members: seq<UserId>): (r: Effect)
    requires kind == StartTyping || kind == StopTyping
    ensures r.Emitted? && r.kind == kind && r.payload == ChatRef(chatId)
    ensures !Reaches(r.audience, from)
    ensures forall s :: Reaches(r.audience, s) <==>
              s != from && (NoneListed(table, members) || exists m :: m in members && m in table && table[m] == s)
    ensures r.audience == EveryoneBut(from) <==> NoneListed(table, members)
  {
    var rooms := GetSockets(table, members);
    assert rooms == {} <==> NoneListed(table, members) by {
      if !NoneListed(table, members) {
        var m :| m in members && m in table;
        assert table[m] in rooms;
      }
    }
    Emitted(kind, if rooms == {} then EveryoneBut(from) else Sockets(rooms - {from}), ChatRef(chatId))
  }

  /**
   * `emitEvent(req, kind, users)` of utils/features.js: `io.to` the sockets
   * of `users`, with no data. When none of `users` is connected it names no
   * room, and the event reaches every client.
   */
  function NoticeEffect(table: map<UserId, SocketId>, kind: EventKind, users: seq<UserId>): (r: Effect)
    ensures r.Emitted? && r.kind == kind && r.payload == NoData
    ensures forall s :: Reaches(r.audience, s) <==>
              NoneListed(table, users) || exists m :: m in users && m in table && table[m] == s
    ensures r.audience == Everyone <==> NoneListed(table, users)
    ensures !r.audience.EveryoneBut?
  {
    var rooms := GetSockets(table, users);
    assert rooms == {} <==> NoneListed(table, users) by {
      if !NoneListed(table, users) {
        var m :| m in users && m in table;
        assert table[m] in rooms;
      }
    }
    Emitted(kind, if rooms == {} then Everyone else Sockets(rooms), NoData)
  }

  /**
   * Where the new-request alert goes: to the receiver's socket alone when
   * the receiver is connected, and to every client when not.
   */
  lemma RequestAlertDelivery(table: map<UserId, SocketId>, receiver: UserId)
    ensures var e := NoticeEffect(table, NewRequestAlert, [receiver]);
            && (receiver in table ==> forall s :: Reaches(e.audience, s) <==> s == table[receiver])
            && (receiver !in table ==> e.audience == Everyone)
  {
    var e := NoticeEffect(table, NewRequestAlert, [receiver]);
    if receiver in table {
      assert !NoneListed(table, [receiver]) by {
        assert receiver in [receiver];
      }
      forall s ensures Reaches(e.audience, s) <==> s == table[receiver] {
        if s == table[receiver] {
          assert receiver in [receiver];
        }
      }
    }
  }

  /**
   * Where the accept notice goes: to the sockets of the sender and the
   * receiver that are connected, and to every client when neither is.
   */
  lemma RefetchDelivery(table: map<UserId, SocketId>, sender: UserId, receiver: UserId)
    ensures var e := NoticeEffect(table, RefetchChats, [sender, receiver]);
            && (sender in table || receiver in table ==>
                  forall s :: Reaches(e.audience, s) <==>
                    (sender in table && s == table[sender]) || (receiver in table && s == table[receiver]))
            && (sender !in table && receiver !in table ==> e.audience == Everyone)
  {
    var users := [sender, receiver];
    assert forall m :: m in users <==> m == sender || m == receiver;
  }

  class PresenceServer {
    /** The keys of `userSocketID` in insertion order, which is the order `keys()` yields them. */
    var order: seq<UserId>
    /** `userSocketID`: one socket id per user. */
    var socketOf: map<UserId, SocketId>
    /** Every emit and every database write attempt, oldest first. */
    var effects: seq<Effect>
    /** The message collection: the writes that succeeded. */
    var stored: seq<StoredMessage>

    ghost predicate Valid()
      reads this
    {
      NoDuplicates(order) && (forall u :: u in order <==> u in socketOf)
    }

    constructor ()
      ensures Valid()
      ensures order == [] && socketOf == map[] && effects == [] && stored == []
    {
      order, socketOf, effects, stored := [], map[], [], [];
    }

    /**
     * A connection attempt. `verified` is the outcome of the socket
     * authenticator: a connection it rejects never reaches the handler and
     * changes nothing. An accepted one sets the user's entry to this socket,
     * overwriting any earlier socket of the same user, and emits nothing.
     */
    method Connect(socket: SocketId, verified: Option<User>) returns (session: Option<Session>)
      requires Valid()
      modifies this
      ensures Valid()
      ensures verified.None? ==> session.None? && order == old(order) && socketOf == old(socketOf)
      ensures verified.Some? ==> session == Some(Session(socket, verified.value))
      ensures verified.Some? ==> socketOf == old(socketOf)[verified.value.id := socket]
      ensures verified.Some? ==>
                order == if verified.value.id in old(socketOf) then old(order) else old(order) + [verified.value.id]
      ensures effects == old(effects) && stored == old(stored)
    {
      if verified.None? {
        return None;
      }
      var u := verified.value;
      if u.id !in socketOf {
        order := order + [u.id];
      }
      socketOf := socketOf[u.id := socket];
      session := Some(Session(socket, u));
    }

    /** The USER_ONLINE handler: the current keys, in order, go to every client. */
    method AnnounceOnline(s: Session)
      requires Valid()
      modifies this`effects
      ensures effects == old(effects) + [Emitted(UserOnline, Everyone, OnlineUsers(order))]
      ensures forall u :: u in effects[|effects| - 1].payload.users <==> u in socketOf
      ensures Valid()
    {
      effects := effects + [Emitted(UserOnline, Everyone, OnlineUsers(order))];
    }

    /**
     * The newMessage handler: both emits, then one write attempt. A failed
     * write is logged and changes neither the table nor what was emitted.
     */
    method SendMessage(s: Session, chatId: ChatId, content: string, members: seq<UserId>,
                       freshId: string, now: string, writeOk: bool)
      requires Valid()
      modifies this`effects, this`stored
      ensures effects == old(effects) + NewMessageEffects(socketOf, s.user, chatId, content, members, freshId, now, writeOk)
      ensures stored == if writeOk then old(stored) + [StoredRecord(s.user, chatId, content)] else old(stored)
      ensures Valid()
    {
      effects := effects + NewMessageEffects(socketOf, s.user, chatId, content, members, freshId, now, writeOk);
      if writeOk {
        stored := stored + [StoredRecord(s.user, chatId, content)];
      }
    }

    /** The START_TYPING and STOP_TYPING handlers. */
    method RelayTyping(s: Session, kind: EventKind, chatId: ChatId, members: seq<UserId>)
      requires Valid()
      requires kind == StartTyping || kind == StopTyping
      modifies this`effects
      ensures effects == old(effects) + [TypingEffect(socketOf, s.socket, kind, chatId, members)]
      ensures Valid()
    {
      effects := effects + [TypingEffect(socketOf, s.socket, kind, chatId, members)];
    }

    /**
     * The disconnect handler: the user's entry goes, whichever of the user's
     * sockets disconnected, and the remaining keys go to every client.
     */
    method Disconnect(s: Session)
      requires Valid()
      modifies this
      ensures Valid()
      ensures socketOf == old(socketOf) - {s.user.id}
      ensures order == Without(old(order), s.user.id)
      ensures s.user.id !in order
      ensures effects == old(effects) + [Emitted(UserOffline, Everyone, OnlineUsers(order))]
      ensures stored == old(stored)
    {
      socketOf := socketOf - {s.user.id};
      order := Without(order, s.user.id);
      effects := effects + [Emitted(UserOffline, Everyone, OnlineUsers(order))];
    }
  }

  /**
   * Two devices of one user: the second connection replaces the first in the
   * table without moving the user in the key order, and a message sent from
   * the second device reaches that device too.
   */
  method SecondDeviceScenario(alice: User, bob: User, phone: SocketId, desk: SocketId, laptop: SocketId)
    requires alice.id != bob.id
  {
    var server := new PresenceServer();
    var onPhone := server.Connect(phone, Some(alice));
    var onDesk := server.Connect(desk, Some(bob));
    assert server.order == [alice.id, bob.id];
    var onLaptop := server.Connect(laptop, Some(alice));
    assert server.order == [alice.id, bob.id];
    assert server.socketOf[alice.id] == laptop && server.socketOf[bob.id] == desk;

    var members := [alice.id, bob.id];
    assert alice.id in members && bob.id in members;
    server.SendMessage(onLaptop.value, "c1", "hi", members, "m1", "t", false);
    assert Reaches(server.effects[0].audience, laptop) && Reaches(server.effects[0].audience, desk);
    assert server.stored == [];
  }

  /**
   * The first device's disconnect takes the user offline although the
   * second device is still connected.
   */
  method StaleDisconnectScenario(alice: User, bob: User, phone: SocketId, desk: SocketId, laptop: SocketId)
    requires alice.id != bob.id
  {
    var server := new PresenceServer();
    var onPhone := server.Connect(phone, Some(alice));
    var onDesk := server.Connect(desk, Some(bob));
    var onLaptop := server.Connect(laptop, Some(alice));
    assert server.order == [alice.id, bob.id];
    server.Disconnect(onPhone.value);
    assert alice.id !in server.socketOf;
    assert server.order == [bob.id];
  }
}
