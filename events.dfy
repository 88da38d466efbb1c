/**
 * The event vocabulary shared by the real-time layer and the controllers
 * (constants/events.js).
 */
module Events {
  import opened Wrappers

  datatype EventKind =
    | Alert
    | RefetchChats
    | NewAttachment
    | NewMessageAlert
    | NewRequestAlert
    | NewMessage
    | StartTyping
    | StopTyping
    | UserOnline
    | UserOffline

  /** The wire name under which an event of kind `k` is emitted and listened for. */
  function Name(k: EventKind): string
  {
    match k
    case Alert => "ALERT"
    case RefetchChats => "REFETCH CHATS"
    case NewAttachment => "newAttachment"
    case NewMessageAlert => "newMessageAlert"
    case NewRequestAlert => "newRequestAlert"
    case NewMessage => "newMessage"
    case StartTyping => "START_TYPING"
    case StopTyping => "STOP_TYPING"
    case UserOnline => "USER_ONLINE"
    case UserOffline => "USER_OFFLINE"
  }

  /** The kind a listener registered under `name` reacts to, if any. */
  function KindOf(name: string): (r: Option<EventKind>)
    ensures r.Some? ==> Name(r.value) == name
  {
    if name == "ALERT" then Some(Alert)
    else if name == "REFETCH CHATS" then Some(RefetchChats)
    else if name == "newAttachment" then Some(NewAttachment)
    else if name == "newMessageAlert" then Some(NewMessageAlert)
    else if name == "newRequestAlert" then Some(NewRequestAlert)
    else if name == "newMessage" then Some(NewMessage)
    else if name == "START_TYPING" then Some(StartTyping)
    else if name == "STOP_TYPING" then Some(StopTyping)
    else if name == "USER_ONLINE" then Some(UserOnline)
    else if name == "USER_OFFLINE" then Some(UserOffline)
    else None
  }

  /** Every kind has its own wire name, so a listener never reacts to another kind's events. */
  lemma NameRoundTrip(k: EventKind)
    ensures KindOf(Name(k)) == Some(k)
  {
  }

  lemma NamesDistinct(k1: EventKind, k2: EventKind)
    ensures Name(k1) == Name(k2) ==> k1 == k2
  {
    NameRoundTrip(k1);
    NameRoundTrip(k2);
  }
}
