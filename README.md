# Chat server core, modelled in Dafny

This project models the logic of a chat server built on Express, MongoDB and socket.io, in four parts:

- **Presence and fan-out** (`realtime.dfy`, app.js). The process keeps one table, `userSocketID`, from each user id to **one** socket id. The connection handler sets the entry and the disconnect handler deletes it. The `USER_ONLINE`, `newMessage` and `START_TYPING`/`STOP_TYPING` handlers read the table to decide who receives what.
  - `PresenceServer` is a class: the table is a `map` plus the key order that `Map.keys()` yields. Every emit and every database write attempt goes on one append-only `effects` log. The successful writes form the `stored` collection.
- **Friend requests and friend/search listings** (`friends.dfy`, controllers/user.controller.js).
  - `FriendStore` is a class over users, pending requests and chats. `sendFriendRequest` and `acceptFriendRequest` are its methods, with every error code and every store effect in their contracts.
  - `getMyFriends` and `searchUser` are functions over the store's contents.
- **Admin dashboard** (`admin.dfy`, controllers/admin.controller.js).
  - The secret-key login, and the `allChats` and `allMessages` projections with their defaulting rules.
  - The seven-day message chart: a loop over a seven-element array, proved against a histogram function.
- **Input validation** (`validators.dfy`, lib/validators.js).
  - The express-validator chains are data: a rule is a location, a field and its steps. `RunSteps` runs a chain. Each field's chain has a lemma saying exactly when it passes, element by element for an array. Each validator's rule set has a lemma saying exactly when the whole request passes.
  - `validateHandler` joins the messages with `" , "`. The join is proved reversible when no message contains a comma, and `DeclaredRulesCommaFree` proves that no message of the eleven validators does, so every rejection splits back into its messages.

`store.dfy` holds the shared records and the lookups that stand for Mongo's `findById` and `populate`. `events.dfy` holds the event names of constants/events.js. `wrappers.dfy` holds `Option` and `Result`.

Nothing is executed: the verifier checks every contract and lemma for all inputs.

Points where the code's behaviour is easy to misread:
- A user may use several devices, but the code keeps one socket id per user. A second connection overwrites the first, and any disconnect of the user removes the user. `Realtime.StaleDisconnectScenario` shows the consequence.
- Typing events go through `socket.to`, which leaves out only the emitting socket. The `newMessage` emits use `io.to`, which includes the sender's own socket whenever the sender is listed among the members.
- socket.io treats an empty room list as no filter. When none of the listed members has a table entry, `io.to([])` reaches every client and `socket.to([])` every client but the emitter. An emit's audience is therefore `Everyone`, `EveryoneBut(socket)` or an explicit socket set. The same holds for the notices the friend-request handlers send through `emitEvent` (utils/features.js): an alert for an offline receiver reaches every client.

Two helpers live in lib/helper.js, which is not part of this model. They are modelled on stated assumptions:
- `getSockets` maps each listed member through the table, and members without an entry contribute nothing (`Realtime.GetSockets`).
- `getOtherMember` returns the first populated member that is not the caller (`Friends.OtherMember`). When there is no such member, the source reads `_id` of `undefined`, and the model returns `Failure(TypeError)`.

## Model

| member | source | states |
|---|---|---|
| Events.KindOf | constants/events.js:1-15 | a wire name maps back to the event kind that carries it, and to nothing else |
| Events.NameRoundTrip | constants/events.js:1-15 | every event kind is recovered from its wire name |
| Events.NamesDistinct | constants/events.js:1-15 | no two event kinds share a wire name |
| Store.FindUser | controllers/user.controller.js:88-91 | `findById` finds a user exactly when one with that id exists, and returns that user |
| Store.KnownIds | controllers/user.controller.js:181 | exactly the ids that resolve to a user; all of them when every id resolves |
| Store.KnownIdsSingle | controllers/user.controller.js:181 | a single id is kept exactly when it resolves |
| Store.KnownIdsAppend | controllers/user.controller.js:181 | the ids kept from a concatenation are those kept from each part, in the same order, so resolving ids keep their order and multiplicity |
| Store.Resolve | controllers/user.controller.js:181 | ids that all resolve are replaced one for one, in order, by the user `findById` finds |
| Store.Populate | controllers/user.controller.js:181 | `populate` keeps the users whose ids resolve, in the order of the ids, each the user `findById` finds; when all resolve, the i-th user has the i-th id |
| Store.DirectChatsOf | controllers/user.controller.js:178-181 | a chat is selected iff it is not a group chat and the caller is a member |
| Store.FindChat | controllers/user.controller.js:194 | `findById` on chats finds the chat with that id exactly when one exists |
| Realtime.GetSockets | app.js:131 | a socket is targeted iff it is the table entry of some listed member |
| Realtime.Without | app.js:156 | deleting a key removes exactly that user from the key order, keeps the other keys, and keeps the order free of duplicates |
| Realtime.RecordsAgree | app.js:114-129 | the real-time and database records agree on content, sender id and chat, whatever id and timestamp are generated |
| Realtime.NewMessageEffects | app.js:113-143 | `newMessage` then `newMessageAlert` go to the same audience: exactly the listed members' sockets, so the sender's socket when the sender is listed, or every client when no listed member is connected; the alert carries only the chat id; one database write follows both emits |
| Realtime.TypingEffect | app.js:145-153 | a typing event never reaches the emitting socket; it reaches exactly the listed members' other sockets, or every other client when no listed member is connected |
| Realtime.NoticeEffect | utils/features.js:35-40 | `emitEvent` reaches exactly the addressed users' sockets, or every client when none of them is connected; it carries no data |
| Realtime.RequestAlertDelivery | utils/features.js:35-40 | a new-request alert reaches only the receiver's socket when the receiver is connected, and every client when not |
| Realtime.RefetchDelivery | utils/features.js:35-40 | the accept notice reaches the connected sockets among sender and receiver, and every client when neither is connected |
| Realtime.PresenceServer.constructor | app.js:32 | the table starts empty, with nothing emitted or stored |
| Realtime.PresenceServer.Connect | app.js:94-104 | a rejected handshake changes nothing; an accepted one sets the user's entry to the new socket, leaves every other entry alone, keeps the user's place in key order if the user was already connected, and emits nothing |
| Realtime.PresenceServer.AnnounceOnline | app.js:107-111 | the table is unchanged and exactly the current keys, in order, go to every client |
| Realtime.PresenceServer.SendMessage | app.js:113-143 | the effects of one new message are appended; the message is stored only if the write succeeds; a failed write changes neither the table nor what was emitted |
| Realtime.PresenceServer.RelayTyping | app.js:145-153 | only the typing emit is appended; the table and the store are untouched |
| Realtime.PresenceServer.Disconnect | app.js:155-161 | the user's entry goes even if another of the user's sockets is live; the remaining keys, which never contain the user, go to every client |
| Realtime.SecondDeviceScenario | app.js:96-136 | a second device replaces the first in the table without moving the user in key order, and receives the user's own message |
| Realtime.StaleDisconnectScenario | app.js:96-159 | the first device's disconnect takes the user offline while the second device is still connected |
| Friends.FindRequest | controllers/user.controller.js:121-125 | a request is found exactly when one has that id |
| Friends.DropRequest | controllers/user.controller.js:133 | `deleteOne` removes exactly the request with that id and keeps ids unique |
| Friends.FriendChat | controllers/user.controller.js:139-145 | the new chat is one-to-one, has members [sender, receiver] and is named "senderName-receiverName" |
| Friends.FriendStore.constructor | controllers/user.controller.js:85-156 | a store starts with its users and no requests or chats, and is valid |
| Friends.FriendStore.SendFriendRequest | controllers/user.controller.js:85-116 | 404 if either user is unknown and 400 if a request exists in either direction, both leaving the store unchanged; otherwise exactly one request from the caller to `userId` is added and a `newRequestAlert` notice is addressed to the receiver only |
| Friends.FriendStore.AcceptFriendRequest | controllers/user.controller.js:118-156 | 404 for an unknown request and 401 when the caller is not the receiver, both with the store unchanged; a rejection deletes the request, creates no chat and emits nothing; an acceptance deletes the request, creates the sender–receiver chat, addresses `REFETCH CHATS` to exactly those two users and replies with the sender's id |
| Friends.OtherMember | controllers/user.controller.js:184 | the result is a member other than the caller, and there is none exactly when every member is the caller |
| Friends.PopulateAll | controllers/user.controller.js:178-181 | one populated member list per chat, in order, each as `Populate` gives it |
| Friends.OtherPopulatedMember | controllers/user.controller.js:181-184 | the other populated member of a chat is a known user other than the caller and a member of that chat |
| Friends.FriendsIn | controllers/user.controller.js:183-191 | one friend per populated chat, in order, carrying the id, name and avatar of that chat's other member; failure exactly when some chat has no other member |
| Friends.FriendsInChats | controllers/user.controller.js:178-191 | over the caller's chats, the listing fails exactly when some chat has no other populated member; otherwise the k-th friend is a known user other than the caller, a member of the k-th chat |
| Friends.NotMembers | controllers/user.controller.js:196-198 | a friend is kept iff their id is not among the chat's members |
| Friends.MyFriends | controllers/user.controller.js:175-210 | each friend shares a one-to-one chat with the caller; without `chat_id`, or with an empty one, the result is one friend per such chat; with it, the friends already in that chat are removed; a missing chat is a TypeError unless there are no friends to filter, and so is a chat with no other member |
| Friends.MembersOf | controllers/user.controller.js:69 | the flattened list holds exactly the members of the given chats |
| Friends.UsersOutside | controllers/user.controller.js:71-80 | a user is listed iff their id is not excluded and their name matches |
| Friends.SearchUser | controllers/user.controller.js:64-83 | a view is listed iff it shows a matching user who is a member of none of the caller's one-to-one chats |
| Friends.SearchListsCallerIffNoDirectChat | controllers/user.controller.js:67-74 | the caller appears in their own search exactly when they have no one-to-one chat |
| Friends.SelfRequestScenario | controllers/user.controller.js:85-191 | a request to oneself is sent and accepted, and afterwards listing one's friends fails |
| Admin.AdminLogin | controllers/admin.controller.js:9-20 | a key that does not strictly equal the configured one gives 401 "Wrong Secret Key"; a match succeeds iff the key is a string and a signing key is set; with no signing key, or with both keys absent (`undefined === undefined`), the signing call throws and the request fails |
| Admin.AbsentKeysFail | controllers/admin.controller.js:9-14 | with no key in the body and none configured, the keys match yet the login fails with a thrown error |
| Admin.ValidatedAdminLogin | controllers/admin.controller.js:9-14 | once the body passes its validator the key is present, and login succeeds iff a key is configured, the body carries it as a string and a signing key is set |
| Admin.OrElse | controllers/admin.controller.js:79-80 | JavaScript `||` on strings: the text unless it is empty |
| Admin.CreatorOf | controllers/admin.controller.js:78-81 | a missing creator shows as name "None" with avatar ""; a known one shows their name (or "None" if it is empty) and their avatar |
| Admin.MessagesIn | controllers/admin.controller.js:69-71 | the count is 0 exactly when no message is in that chat |
| Admin.FirstAvatars | controllers/admin.controller.js:77 | the first min(3, n) members' avatars, in order |
| Admin.ChatSummary | controllers/admin.controller.js:66-87 | `avatar` is the first min(3, n) populated members' avatars; `totalMembers` is the populated member count, which equals the member count when every member exists; the creator defaults as above; `messages` counts the chat's messages |
| Admin.AllChats | controllers/admin.controller.js:60-92 | one summary per chat, in order |
| Admin.MessageSummary | controllers/admin.controller.js:99-115 | a missing chat makes `chat` and `groupChat` null; `groupChat` is never false, because a non-group chat also gives null; a missing sender gives a null sender; an empty avatar gives a null avatar |
| Admin.AllMessages | controllers/admin.controller.js:94-121 | one summary per message, in order |
| Admin.Slots | controllers/admin.controller.js:174-179 | each message's chart slot is `6 - floor(age / day)` |
| Admin.Tally | controllers/admin.controller.js:179 | reference count of the messages in one bucket, which never exceeds the number of messages; the loop and `Histogram` are proved against it |
| Admin.InRange | controllers/admin.controller.js:179 | reference count of the messages that land in one of the seven buckets, never more than the number of messages; `HistogramTotal` and `InRangeAll` are proved against it |
| Admin.Histogram | controllers/admin.controller.js:171 | the chart has exactly seven buckets, each the number of messages with that slot |
| Admin.SumOfSeven | controllers/admin.controller.js:171 | the total of a seven-bucket chart is the sum of its buckets |
| Admin.HistogramTotal | controllers/admin.controller.js:171-180 | the buckets together count exactly the messages whose slot is one of them |
| Admin.BucketsPartition | controllers/admin.controller.js:171-180 | the seven per-bucket counts add up to the in-range count |
| Admin.InRangeAll | controllers/admin.controller.js:179 | when every slot is a bucket, every message is in range |
| Admin.MessagesChart | controllers/admin.controller.js:159-180 | the array filled in place equals the histogram of the messages' slots; a message whose slot is -1 leaves it unchanged |
| Admin.SlotOfRecentMessage | controllers/admin.controller.js:172-179 | a message under seven days old lands in a bucket, and in bucket 6 exactly when it is under a day old |
| Admin.OneMessageOneBucket | controllers/admin.controller.js:179 | one more message adds one to its own bucket and changes no other |
| Admin.ChartCountsRecentMessages | controllers/admin.controller.js:161-180 | when every message is under seven days old, the chart's total is the number of messages |
| Admin.SevenDayOldMessageNotCharted | controllers/admin.controller.js:164-179 | a message exactly seven days old is inside the query's window yet absent from the chart |
| Admin.CorrectedSlots | controllers/admin.controller.js:174-179 | the corrected slot of every message |
| Admin.CorrectedChartCountsAll | controllers/admin.controller.js:161-180 | with the corrected slot every message in the window is counted once, and messages under seven days old keep their bucket |
| Validators.SkipSpaces | lib/validators.js:6 | the first non-space position at or after `i` |
| Validators.SkipSpacesBack | lib/validators.js:6 | the position just after the last non-space before `j` |
| Validators.Trim | lib/validators.js:6 | the result is a slice of the input with only white space outside it, begins and ends with non-space, and is empty iff the input is all white space |
| Validators.TrimIdempotent | lib/validators.js:6 | trimming twice is trimming once |
| Validators.CountSelectors | lib/validators.js:9 | the variation selectors `isLength` ignores; none in a string without them |
| Validators.Length | lib/validators.js:9 | `isLength` counts the characters other than the variation selectors; a string without them counts all its characters |
| Validators.FailuresOver | lib/validators.js:4-109 | a standard check reports its message once per failing array element |
| Validators.CheckErrors | lib/validators.js:4-109 | the messages of one check; `isArray` judges the whole value |
| Validators.TrimValue | lib/validators.js:6 | `trim()` replaces the value by its trimmed text; an array keeps its length and each element is trimmed |
| Validators.RunSteps | lib/validators.js:4-109 | a chain's messages, in order; comma-free when the chain's messages are |
| Validators.ValidationErrors | lib/validators.js:70-74 | no messages iff every rule's chain passes; comma-free when every rule's messages are |
| Validators.RunTrimFirst | lib/validators.js:6 | a leading `trim()` makes the rest of the chain see the trimmed text |
| Validators.RunValidateFirst | lib/validators.js:7-8 | a leading check reports its messages before the rest of the chain |
| Validators.ScalarCheck | lib/validators.js:7-8 | a check on a single value reports its message once or not at all |
| Validators.TwoScalarChecks | lib/validators.js:7-10 | two checks in a row report each failure in order |
| Validators.TrimThenTwoChecks | lib/validators.js:21-26 | after a leading `trim()`, two checks on the trimmed text report each failure in order |
| Validators.TrimThenThreeChecks | lib/validators.js:12-19 | after a leading `trim()`, three checks on the trimmed text report each failure in order |
| Validators.CheckTrimCheck | lib/validators.js:28-33 | a check on the raw text, then `trim()`, then a check on the trimmed text, each failure reported in order |
| Validators.ElementWise | lib/validators.js:4-109 | a chain without `isArray` passes on an array iff it passes on each element alone |
| Validators.TrimStepOnElements | lib/validators.js:6 | a leading `trim()` runs on an array as on each element |
| Validators.CheckStepOnElements | lib/validators.js:7-8 | a leading check on an array reports nothing iff it reports nothing on each element |
| Validators.NameText | lib/validators.js:5-10 | a single name passes iff, trimmed, it is non-empty and at least 3 characters long |
| Validators.UsernameText | lib/validators.js:12-19 | a single username passes iff, trimmed, it is non-empty, at least 5 characters and alphanumeric |
| Validators.PasswordText | lib/validators.js:21-26 | a single password passes iff, trimmed, it is at least 8 characters long |
| Validators.BioText | lib/validators.js:28-33 | a single bio passes iff it is non-empty and, trimmed, at most 150 characters |
| Validators.NameRule | lib/validators.js:5-10 | a name, or every element of an array of names, passes iff, trimmed, it is non-empty and at least 3 characters long; a failure on a single value lists each broken rule in order |
| Validators.UsernameRule | lib/validators.js:12-19 | a username, or every element of an array, passes iff, trimmed, it is non-empty, at least 5 characters long and only ASCII letters and digits |
| Validators.PasswordRule | lib/validators.js:21-26 | a password, or every element of an array, passes iff, trimmed, it is non-empty and at least 8 characters long |
| Validators.BioRule | lib/validators.js:28-33 | a bio, or every element of an array, passes iff it is non-empty before trimming and at most 150 characters after |
| Validators.BlankBioPasses | lib/validators.js:28-33 | a bio of white space only passes although it trims to nothing |
| Validators.MembersRule | lib/validators.js:44-48 | a member list passes iff it is an array of min to max non-empty ids |
| Validators.GroupMembersRule | lib/validators.js:42-49 | a new group needs 2 to 100 members |
| Validators.AddedMembersRule | lib/validators.js:51-58 | adding members needs 1 to 97 of them |
| Validators.AcceptRule | lib/validators.js:100-104 | `accept` passes iff it is present and reads as a boolean |
| Validators.BooleanRule | lib/validators.js:100-104 | `notEmpty` then `isBoolean` pass iff the value, or every element of an array, is boolean text |
| Validators.BooleanItems | lib/validators.js:100-104 | non-empty and boolean on every element is the same as boolean on every element |
| Validators.RequiredChain | lib/validators.js:43 | a lone `notEmpty` passes iff the value, or every element of an array, is non-empty |
| Validators.TrimmedRequiredChain | lib/validators.js:37-39 | `trim()` then `notEmpty` passes iff the value, or every element of an array, has a non-space character |
| Validators.OneRule | lib/validators.js:65-67 | a one-rule validator passes iff its chain passes on its field |
| Validators.TwoRules | lib/validators.js:36-40 | a two-rule validator passes iff both chains pass on their fields |
| Validators.FourRules | lib/validators.js:4-34 | a four-rule validator passes iff all four chains pass on their fields |
| Validators.RegisterPasses | lib/validators.js:4-34 | registration passes iff the name, username, password and bio each pass their rule |
| Validators.LogInPasses | lib/validators.js:36-40 | log-in passes iff the username and the password each have a non-space character |
| Validators.NewGroupPasses | lib/validators.js:42-49 | a new group passes iff it has a non-empty name and an array of 2 to 100 non-empty member ids |
| Validators.AddMemberPasses | lib/validators.js:51-58 | adding members passes iff the chat id is non-empty and there is an array of 1 to 97 non-empty member ids |
| Validators.RemoveMemberPasses | lib/validators.js:60-63 | removing a member passes iff the chat id and the user id are non-empty |
| Validators.ChatIdPasses | lib/validators.js:65-67 | a chat route passes iff its `id` parameter is non-empty |
| Validators.RenamePasses | lib/validators.js:85-88 | renaming passes iff the `id` parameter and the new name are non-empty |
| Validators.SendAttachmentsPasses | lib/validators.js:90-92 | sending attachments passes iff the chat id is non-empty |
| Validators.SendRequestPasses | lib/validators.js:94-96 | a friend request passes iff the user id is non-empty |
| Validators.AcceptRequestPasses | lib/validators.js:98-105 | an accept-request body passes iff `requestId` (every element, for an array) is non-empty and `accept` passes its rule |
| Validators.AdminLoginPasses | lib/validators.js:107-109 | the admin log-in passes iff `secretKey` (every element, for an array) is non-empty |
| Validators.FalseStringAccepts | lib/validators.js:100-104 | the string "false" passes the `accept` rule and is truthy, so the handler takes it as an acceptance |
| Validators.Join | lib/validators.js:75 | joining one message gives that message |
| Validators.ValidateHandler | lib/validators.js:69-83 | the request proceeds iff there are no errors; otherwise one 400 error whose message is all messages joined by " , " |
| Validators.FindSeparator | lib/validators.js:75 | the first " , " at or after `i`, or the end |
| Validators.Split | lib/validators.js:75 | splitting on " , " yields at least one part |
| Validators.FirstSeparatorAt | lib/validators.js:75 | a comma-free message ends where the first separator starts |
| Validators.SplitJoin | lib/validators.js:75 | splitting the joined comma-free messages gives back the messages |
| Validators.RejectionListsEveryMessage | lib/validators.js:69-83 | a rejection carries status 400, and every failed rule's message can be recovered from it, in order |
| Validators.NameLengthMessageCommaFree | lib/validators.js:10 | the name-length message holds no comma |
| Validators.UsernameLengthMessageCommaFree | lib/validators.js:17 | the username-length message holds no comma |
| Validators.UsernameCharsMessageCommaFree | lib/validators.js:19 | the username-characters message holds no comma |
| Validators.PasswordLengthMessageCommaFree | lib/validators.js:26 | the password-length message holds no comma |
| Validators.BioLengthMessageCommaFree | lib/validators.js:33 | the bio-length message holds no comma |
| Validators.NameStepsCommaFree | lib/validators.js:5-10 | no message of the name chain holds a comma |
| Validators.UsernameStepsCommaFree | lib/validators.js:12-19 | no message of the username chain holds a comma |
| Validators.PasswordStepsCommaFree | lib/validators.js:21-26 | no message of the password chain holds a comma |
| Validators.BioStepsCommaFree | lib/validators.js:28-33 | no message of the bio chain holds a comma |
| Validators.RegisterCommaFree | lib/validators.js:4-34 | no message of the registration validator holds a comma |
| Validators.LogInCommaFree | lib/validators.js:36-40 | no message of the log-in validator holds a comma |
| Validators.NewGroupCommaFree | lib/validators.js:42-49 | no message of the new-group validator holds a comma |
| Validators.AddMemberCommaFree | lib/validators.js:51-58 | no message of the add-member validator holds a comma |
| Validators.RemoveMemberCommaFree | lib/validators.js:60-63 | no message of the remove-member validator holds a comma |
| Validators.ChatIdCommaFree | lib/validators.js:65-67 | no message of the chat-id validator holds a comma |
| Validators.RenameCommaFree | lib/validators.js:85-88 | no message of the rename validator holds a comma |
| Validators.SendAttachmentsCommaFree | lib/validators.js:90-92 | no message of the send-attachments validator holds a comma |
| Validators.SendRequestCommaFree | lib/validators.js:94-96 | no message of the send-request validator holds a comma |
| Validators.AcceptRequestCommaFree | lib/validators.js:98-105 | no message of the accept-request validator holds a comma |
| Validators.AdminLoginCommaFree | lib/validators.js:107-109 | no message of the admin log-in validator holds a comma |
| Validators.DeclaredRulesCommaFree | lib/validators.js:4-109 | no message of any of the eleven validators holds a comma, which is the hypothesis `RejectionListsEveryMessage` needs |

## Left out

- MongoDB I/O. `find`, `findById`, `populate`, `countDocuments`, `create` and `deleteOne` act on in-memory sequences. A write's success is a parameter (`writeOk`). Generated ids are parameters, and each must be fresh (a `requires`).
- socket.io transport, the cookie handshake, and the authentication middleware. The middleware's verdict is the `Option<User>` that `Connect` receives.
- Clocks and randomness. `uuid()`, `new Date()` and `Date.now()` become parameters. The chart's query window (`$gte` seven days back, `$lte` now) is the `InWindow` precondition, with a fixed day of 86400000 ms. So the model does not capture `setDate` across a daylight-saving change, nor that `last7Days` is taken a few milliseconds after `today`.
- `jwt.sign`, bcrypt and cookies. `adminLogin` returns its message instead of setting the token cookie.
- Admin.AdminLogin: jsonwebtoken is not part of this model. Its two failures that this call can meet are assumptions: a missing or empty signing key (`JWT_SECRET`), checked first, and an `undefined` payload. The error wrapper passes either on as a failed request, whose status the error middleware decides; that middleware is not part of this model.
- Concurrency. The handlers run one at a time. The awaited write in `newMessage` is logged at once, so no interleaving with other handlers is modelled.
- Logging. A failed write is modelled as a `DbWrite` effect whose `ok` flag is false, not as the console line the source prints.
- `searchUser`'s `$regex` match. It is a parameter `matches`, and only the exclusion rule is modelled.
- `allUsers`, logout, registration, login, avatar upload, Cloudinary, the route wiring and the cookie/CORS constants. These are outside the modelled core.
- Friends.FriendStore.SendFriendRequest and Friends.FriendStore.AcceptFriendRequest: the reply carries the `Notice` that `emitEvent` is called with; `Realtime.NoticeEffect` states where such a notice arrives, which depends on the socket table the handler does not see.
- Friends.FriendStore.AcceptFriendRequest: the crash when a populated sender or receiver is missing is not modelled. `Valid()` keeps every request's parties in the store, and the core never deletes users.
- Realtime.GetSockets: lib/helper.js is not part of this model. Its behaviour is an assumption, stated as this function's contract.
- Friends.OtherMember: lib/helper.js is not part of this model. Its behaviour is an assumption, stated as this function's contract.
- Admin.MessagesChart: the non-index property that `messages[-1]++` creates on the array is not modelled. The seven buckets are what the reply's chart shows.
- Store.FindUser, Store.FindChat and Friends.FindRequest: ids are opaque strings, so the cast error `findById` raises on a malformed ObjectId is not modelled; such an id simply finds nothing.
- Friends.MyFriends: a `chat_id` query parameter given as an array is not modelled; the parameter is absent or one string.
- Validators: regular expressions, case folding and Unicode beyond the two variation selectors are not modelled. `IsSpace` is JavaScript's white-space set, and `IsAsciiAlnum` is the en-US alphabet and digits. A JSON number or object in the body is not modelled: a body value is absent, a string, a boolean or an array of strings.

## Findings

| source | as written | input that shows it | evidently intended | confidence | as-written member | corrected member |
|---|---|---|---|---|---|---|
| controllers/admin.controller.js:164-179 | the query admits messages up to exactly seven days old (`$gte`), but such a message gets index 7 and `messages[6 - 7]++` updates no bucket | a message created exactly 7 × 86400000 ms before `today` | every message the query returns is charted, the oldest in bucket 0 | not executed | Admin.SevenDayOldMessageNotCharted | Admin.CorrectedChartCountsAll |
