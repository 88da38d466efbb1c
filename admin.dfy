/**
 * The admin dashboard of controllers/admin.controller.js: the secret-key
 * login, the chat and message listings, and the seven-day message chart.
 */
module Admin {
  import opened Wrappers
  import opened Store
  import opened Validators

  // ---------------------------------------------------------------- login

  /**
   * `adminLogin`: the body's `secretKey` must be strictly equal to the
   * configured key, which is `undefined` when the environment does not set
   * it. The match is then signed with `jwt.sign(secretKey, signingKey)`,
   * which throws when the signing key is missing or empty, and otherwise
   * when the payload is `undefined`. Only the outcome is modelled; the
   * token and its cookie are not.
   */
  function AdminLogin(secretKey: JsonValue, configured: Option<string>, signingKey: Option<string>)
    : (r: Result<string, ApiError>)
    ensures r.Success? <==>
              secretKey.Str? && configured == Some(secretKey.s) && signingKey.Some? && signingKey.value != ""
    ensures r.Success? ==> r.value == "Welcome back, BOSS"
    ensures r == Failure(HttpError(401, "Wrong Secret Key")) <==>
              !(secretKey == Undefined && configured == None) && !(secretKey.Str? && configured == Some(secretKey.s))
    ensures r == Failure(Thrown("payload is required")) <==>
              secretKey == Undefined && configured == None && signingKey.Some? && signingKey.value != ""
    ensures r.Failure? && r.error.Thrown? && r.error.message == "secretOrPrivateKey must have a value" <==>
              ((secretKey == Undefined && configured == None) || (secretKey.Str? && configured == Some(secretKey.s)))
              && (signingKey.None? || signingKey.value == "")
  {
    var matched := match secretKey
      case Undefined => configured.None?
      case Str(s) => configured == Some(s)
      case _ => false;
    if !matched then Failure(HttpError(401, "Wrong Secret Key"))
    else if signingKey.None? || signingKey.value == "" then Failure(Thrown("secretOrPrivateKey must have a value"))
    else if secretKey == Undefined then Failure(Thrown("payload is required"))
    else Success("Welcome back, BOSS")
  }

  /**
   * With no key in the body and none configured, the keys match, yet the
   * login fails: the signing call throws instead of issuing a token.
   */
  lemma AbsentKeysFail(signingKey: Option<string>)
    ensures AdminLogin(Undefined, None, signingKey).Failure?
    ensures AdminLogin(Undefined, None, signingKey).error.Thrown?
  {
  }

  /**
   * Behind its validator, a login succeeds exactly when a key is configured,
   * the body carries it as a string and a signing key is set: the validator
   * turns away the missing key that would otherwise equal a missing
   * configuration.
   */
  lemma ValidatedAdminLogin(req: Request, configured: Option<string>, signingKey: Option<string>)
    requires ValidationErrors(AdminLoginRules, req) == []
    ensures var key := FieldValue(req, Body, "secretKey");
            && key != Undefined
            && (AdminLogin(key, configured, signingKey).Success? <==>
                  key.Str? && configured == Some(key.s) && signingKey.Some? && signingKey.value != "")
  {
    var key := FieldValue(req, Body, "secretKey");
    assert RunSteps(AdminLoginRules[0].steps, key) == [];
    RunValidateFirst(NotEmpty, "Please Enter Secret Key", [], key);
    if !key.Arr? {
      ScalarCheck(NotEmpty, "Please Enter Secret Key", key);
    }
  }

  // ---------------------------------------------------------------- chats

  /** JavaScript's `text || fallback` for a string. */
  function OrElse(text: string, fallback: string): (r: string)
    ensures text != "" ==> r == text
    ensures text == "" ==> r == fallback
  {
    if text != "" then text else fallback
  }

  datatype CreatorView = CreatorView(name: string, avatar: string)
  datatype MemberView = MemberView(id: UserId, avatar: string)
  datatype ChatView = ChatView(
    id: ChatId, name: string, groupChat: bool, avatar: seq<string>, creator: CreatorView,
    totalMembers: nat, members: seq<MemberView>, messages: nat)

  /** The creator as the listing shows it: "None" and "" stand in for a missing creator or empty fields. */
  function CreatorOf(users: seq<User>, creator: Option<UserId>): (r: CreatorView)
    ensures r.name != ""
    ensures creator.None? || !Known(users, creator.value) ==> r == CreatorView("None", "")
    ensures creator.Some? && Known(users, creator.value) ==>
              var u := FindUser(users, creator.value).value;
              r.name == OrElse(u.name, "None") && r.avatar == u.avatar
  {
    match creator
    case None => CreatorView("None", "")
    case Some(id) =>
      match FindUser(users, id)
      case None => CreatorView("None", "")
      case Some(u) => CreatorView(OrElse(u.name, "None"), OrElse(u.avatar, ""))
  }

  /** The number of messages in chat `id` (`Message.countDocuments({chat})`). */
  function MessagesIn(messages: seq<Message>, id: ChatId): (n: nat)
    ensures n <= |messages|
    ensures n == 0 <==> forall m :: m in messages ==> m.chat != id
  {
    if messages == [] then 0
    else
      assert forall m :: m in messages <==> m == messages[0] || m in messages[1..];
      (if messages[0].chat == id then 1 else 0) + MessagesIn(messages[1..], id)
  }

  /** The avatars of the first `n` of `members`. */
  function FirstAvatars(members: seq<User>, n: nat): (r: seq<string>)
    ensures |r| == if n < |members| then n else |members|
    ensures forall k :: 0 <= k < |r| ==> r[k] == members[k].avatar
  {
    if n == 0 || members == [] then [] else [members[0].avatar] + FirstAvatars(members[1..], n - 1)
  }

  /** One row of `allChats`. */
  function ChatSummary(users: seq<User>, messages: seq<Message>, c: Chat): (r: ChatView)
    ensures var present := Populate(users, c.members);
            && r.totalMembers == |present|
            && |r.avatar| == (if |present| < 3 then |present| else 3)
            && (forall k :: 0 <= k < |r.avatar| ==> r.avatar[k] == present[k].avatar)
            && |r.members| == |present|
            && (forall k :: 0 <= k < |r.members| ==> r.members[k] == MemberView(present[k].id, present[k].avatar))
    ensures (forall id :: id in c.members ==> Known(users, id)) ==>
              r.totalMembers == |c.members| && forall k :: 0 <= k < |r.members| ==> r.members[k].id == c.members[k]
    ensures r.creator == CreatorOf(users, c.creator)
    ensures r.id == c.id && r.name == c.name && r.groupChat == c.groupChat
    ensures r.messages == MessagesIn(messages, c.id)
  {
    var present := Populate(users, c.members);
    ChatView(c.id, c.name, c.groupChat, FirstAvatars(present, 3), CreatorOf(users, c.creator), |present|,
             seq(|present|, k requires 0 <= k < |present| => MemberView(present[k].id, present[k].avatar)),
             MessagesIn(messages, c.id))
  }

  /** `allChats`: one summary per chat, in store order. */
  function AllChats(users: seq<User>, chats: seq<Chat>, messages: seq<Message>): (r: seq<ChatView>)
    ensures |r| == |chats|
    ensures forall k :: 0 <= k < |r| ==> r[k] == ChatSummary(users, messages, chats[k])
  {
    seq(|chats|, k requires 0 <= k < |chats| => ChatSummary(users, messages, chats[k]))
  }

  // ---------------------------------------------------------------- messages

  datatype SenderView = SenderView(id: UserId, name: string, avatar: Option<string>)
  datatype MessageView = MessageView(
    id: MessageId, attachments: seq<string>, content: string, createdAt: int,
    chat: Option<ChatId>, groupChat: Option<bool>, sender: Option<SenderView>)

  /**
   * One row of `allMessages`. `None` stands for `null`: a missing chat
   * gives a null chat and group flag, and because of `||` a chat that is
   * not a group also gives a null group flag; a missing sender gives a null
   * sender, and an empty avatar a null avatar.
   */
  function MessageSummary(users: seq<User>, chats: seq<Chat>, m: Message): (r: MessageView)
    ensures r.id == m.id && r.content == m.content && r.attachments == m.attachments && r.createdAt == m.createdAt
    ensures r.chat == (if FindChat(chats, m.chat).Some? then Some(m.chat) else None)
    ensures r.groupChat != Some(false)
    ensures r.groupChat == Some(true) <==> FindChat(chats, m.chat).Some? && FindChat(chats, m.chat).value.groupChat
    ensures r.chat.None? ==> r.groupChat.None?
    ensures r.sender.Some? <==> Known(users, m.sender)
    ensures r.sender.Some? ==>
              var u := FindUser(users, m.sender).value;
              r.sender.value.id == m.sender && r.sender.value.name == u.name
              && r.sender.value.avatar == (if u.avatar == "" then None else Some(u.avatar))
  {
    var chat := FindChat(chats, m.chat);
    var sender := FindUser(users, m.sender);
    MessageView(
      m.id, m.attachments, m.content, m.createdAt,
      if chat.Some? then Some(chat.value.id) else None,
      if chat.Some? && chat.value.groupChat then Some(true) else None,
      if sender.Some?
      then Some(SenderView(sender.value.id, sender.value.name,
                           if sender.value.avatar == "" then None else Some(sender.value.avatar)))
      else None)
  }

  /** `allMessages`: one row per message, in store order. */
  function AllMessages(users: seq<User>, chats: seq<Chat>, messages: seq<Message>): (r: seq<MessageView>)
    ensures |r| == |messages|
    ensures forall k :: 0 <= k < |r| ==> r[k] == MessageSummary(users, chats, messages[k])
  {
    seq(|messages|, k requires 0 <= k < |messages| => MessageSummary(users, chats, messages[k]))
  }

  // ---------------------------------------------------------------- chart

  /** Milliseconds in a day. */
  const Day: int := 1000 * 60 * 60 * 24

  /**
   * The chart slot `messages[6 - index]` for a message created at
   * `createdAt`, where `index` is `Math.floor` of its age in days (Dafny's
   * division by a positive divisor floors, as `Math.floor` does).
   */
  function Slot(today: int, createdAt: int): int
  {
    6 - (today - createdAt) / Day
  }

  /** The slots of all messages, in the order the query returns them. */
  function Slots(today: int, createdAt: seq<int>): (r: seq<int>)
    ensures |r| == |createdAt|
    ensures forall k :: 0 <= k < |r| ==> r[k] == Slot(today, createdAt[k])
  {
    seq(|createdAt|, k requires 0 <= k < |createdAt| => Slot(today, createdAt[k]))
  }

  /** How many of `slots` equal `b`. */
  function Tally(slots: seq<int>, b: int): (n: nat)
    ensures n <= |slots|
  {
    if slots == [] then 0
    else Tally(slots[..|slots| - 1], b) + (if slots[|slots| - 1] == b then 1 else 0)
  }

  /** How many of `slots` name one of the seven buckets. */
  function InRange(slots: seq<int>): (n: nat)
    ensures n <= |slots|
  {
    if slots == [] then 0
    else InRange(slots[..|slots| - 1]) + (if 0 <= slots[|slots| - 1] < 7 then 1 else 0)
  }

  /** The seven bucket counts for the given slots. */
  function Histogram(slots: seq<int>): (r: seq<nat>)
    ensures |r| == 7
    ensures forall b :: 0 <= b < 7 ==> r[b] == Tally(slots, b)
  {
    seq(7, b => Tally(slots, b))
  }

  function Sum(s: seq<int>): int
  {
    if s == [] then 0 else s[0] + Sum(s[1..])
  }

  lemma SumOfSeven(s: seq<int>)
    requires |s| == 7
    ensures Sum(s) == s[0] + s[1] + s[2] + s[3] + s[4] + s[5] + s[6]
  {
    var t := s;
    assert Sum(t) == t[0] + Sum(t[1..]);
    t := t[1..];
    assert Sum(t) == t[0] + Sum(t[1..]);
    t := t[1..];
    assert Sum(t) == t[0] + Sum(t[1..]);
    t := t[1..];
    assert Sum(t) == t[0] + Sum(t[1..]);
    t := t[1..];
    assert Sum(t) == t[0] + Sum(t[1..]);
    t := t[1..];
    assert Sum(t) == t[0] + Sum(t[1..]);
    t := t[1..];
    assert Sum(t) == t[0] + Sum(t[1..]);
    assert t[1..] == [];
  }

  /** The seven buckets together count exactly the messages whose slot is one of them. */
  lemma {:induction false} HistogramTotal(slots: seq<int>)
    ensures Sum(Histogram(slots)) == InRange(slots)
  {
    SumOfSeven(Histogram(slots));
    BucketsPartition(slots);
  }

  lemma {:induction false} BucketsPartition(slots: seq<int>)
    ensures Tally(slots, 0) + Tally(slots, 1) + Tally(slots, 2) + Tally(slots, 3)
            + Tally(slots, 4) + Tally(slots, 5) + Tally(slots, 6) == InRange(slots)
  {
    if slots != [] {
      BucketsPartition(slots[..|slots| - 1]);
    }
  }

  lemma {:induction false} InRangeAll(slots: seq<int>)
    requires forall k :: 0 <= k < |slots| ==> 0 <= slots[k] < 7
    ensures InRange(slots) == |slots|
  {
    if slots != [] {
      InRangeAll(slots[..|slots| - 1]);
    }
  }

  /** The query's window: created no earlier than seven days before `today` and not after it. */
  predicate InWindow(today: int, createdAt: seq<int>)
  {
    forall k :: 0 <= k < |createdAt| ==> today - 7 * Day <= createdAt[k] <= today
  }

  /**
   * The chart of `getDashboardStats`: seven counters start at 0 and each
   * message in the window increments the counter of its slot. A message
   * exactly seven days old has slot -1; the source's `messages[-1]++` then
   * writes a property that is not one of the seven counters, so the chart is
   * left as it was.
   */
  method MessagesChart(today: int, createdAt: seq<int>) returns (chart: seq<int>)
    requires InWindow(today, createdAt)
    ensures chart == Histogram(Slots(today, createdAt))
  {
    var messages := new int[7](_ => 0);
    ghost var slots := Slots(today, createdAt);
    for i := 0 to |createdAt|
      invariant forall b :: 0 <= b < 7 ==> messages[b] == Tally(slots[..i], b)
    {
      var index := (today - createdAt[i]) / Day;
      if 0 <= 6 - index < 7 {
        messages[6 - index] := messages[6 - index] + 1;
      }
      assert slots[..i + 1][..i] == slots[..i];
    }
    assert slots[..|createdAt|] == slots;
    chart := messages[..];
  }

  /** A message under a day old lands in the last bucket; one under seven days old in bucket 6 - its age in days. */
  lemma SlotOfRecentMessage(today: int, createdAt: int)
    requires today - 7 * Day < createdAt <= today
    ensures 0 <= Slot(today, createdAt) < 7
    ensures Slot(today, createdAt) == 6 <==> today - createdAt < Day
  {
  }

  /** Charting one more message with slot `s` adds one to bucket `s` and changes no other bucket. */
  lemma OneMessageOneBucket(slots: seq<int>, s: int)
    ensures forall b :: 0 <= b < 7 ==>
              Histogram(slots + [s])[b] == Histogram(slots)[b] + (if b == s then 1 else 0)
  {
    assert (slots + [s])[..|slots|] == slots;
  }

  /** When every message in the window is under seven days old, the chart counts every message. */
  lemma {:induction false} ChartCountsRecentMessages(today: int, createdAt: seq<int>)
    requires forall k :: 0 <= k < |createdAt| ==> today - 7 * Day < createdAt[k] <= today
    ensures Sum(Histogram(Slots(today, createdAt))) == |createdAt|
  {
    var slots := Slots(today, createdAt);
    forall k | 0 <= k < |slots| ensures 0 <= slots[k] < 7 {
      SlotOfRecentMessage(today, createdAt[k]);
    }
    InRangeAll(slots);
    HistogramTotal(slots);
  }

  /** A message exactly seven days old is inside the query's window and yet missing from the chart. */
  lemma SevenDayOldMessageNotCharted(today: int)
    ensures InWindow(today, [today - 7 * Day])
    ensures Histogram(Slots(today, [today - 7 * Day])) == [0, 0, 0, 0, 0, 0, 0]
  {
    var slots := Slots(today, [today - 7 * Day]);
    assert slots == [-1];
    assert slots[..0] == [];
  }

  /** The slot with the seven-day-old message put in the oldest bucket. */
  function CorrectedSlot(today: int, createdAt: int): int
  {
    var index := (today - createdAt) / Day;
    if index >= 7 then 0 else 6 - index
  }

  function CorrectedSlots(today: int, createdAt: seq<int>): (r: seq<int>)
    ensures |r| == |createdAt|
    ensures forall k :: 0 <= k < |r| ==> r[k] == CorrectedSlot(today, createdAt[k])
  {
    seq(|createdAt|, k requires 0 <= k < |createdAt| => CorrectedSlot(today, createdAt[k]))
  }

  /** With the corrected slot, every message the query returns is counted once, and recent messages keep their bucket. */
  lemma {:induction false} CorrectedChartCountsAll(today: int, createdAt: seq<int>)
    requires InWindow(today, createdAt)
    ensures Sum(Histogram(CorrectedSlots(today, createdAt))) == |createdAt|
    ensures forall k :: 0 <= k < |createdAt| && today - createdAt[k] < 7 * Day ==>
              CorrectedSlots(today, createdAt)[k] == Slots(today, createdAt)[k]
  {
    var slots := CorrectedSlots(today, createdAt);
    forall k | 0 <= k < |slots| ensures 0 <= slots[k] < 7 {
      assert 0 <= today - createdAt[k] <= 7 * Day;
    }
    InRangeAll(slots);
    HistogramTotal(slots);
  }
}
