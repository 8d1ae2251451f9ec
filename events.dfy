/**
 * The shared named-event store ("EventContext") through which the chat components talk to each
 * other, and the shapes of the payloads they put into it.
 *
 * The store keeps at most one payload per event name. `AddEvent` overwrites, `GetEventData`
 * returns the current payload or nothing, `RemoveEvent` deletes and is a no-op for an absent
 * name. Observer notification and re-rendering are not modelled.
 */
module Events {
  import opened Wrappers

  /**
   * A contact or group record as the transport delivers it. Every field holds the value of the
   * optional chain the directory reads (`contact.contact_data?.nickname`, ...); `None` stands for
   * the chain yielding `undefined`. A missing `is_group` reads as `false`.
   */
  datatype RawContact = RawContact(
    nickname: Option<string>,       // contact_data?.nickname
    profileImage: Option<string>,   // contact_data?.image_profile
    groupName: Option<string>,      // group_data?.name
    groupImage: Option<string>,     // group_data?.image
    requestStatus: Option<string>,  // request?.status
    status: Option<string>,         // status
    isGroup: bool)                  // is_group

  /** A friend request between two users; either side may be missing from the payload. */
  datatype FriendRequest = FriendRequest(fromUser: Option<string>, toUser: Option<string>)

  /** The current user's record (`show_user_info`); only its nickname is read here. */
  datatype UserInfo = UserInfo(nickname: Option<string>)

  /** A chat message; `text` is `None` when the payload has no text field. */
  datatype Message = Message(publicId: string, text: Option<string>, sender: string)

  // The statuses a friend request, and the contact record it concerns, can be in.
  const PENDING := "pending"
  const ACCEPTED := "accepted"
  const REJECTED := "rejected"

  /** What can be stored under an event name. `Nothing` is a stored falsy non-string value
      (null, undefined, false, 0). */
  datatype Payload =
    | Nothing
    | Text(s: string)
    | Record(raw: RawContact)
    | RecordList(raws: seq<RawContact>)
    | User(info: UserInfo)
    | Request(request: FriendRequest)
    | StatusUpdate(request: FriendRequest, newStatus: Option<string>)
    | StatusNotice(status: string, contactName: Option<string>, fromUserName: Option<string>)
    | ChatSelection(contactName: Option<string>, contactStatus: Option<string>)
    | MessageList(messages: seq<Message>)
    | SingleMessage(message: Message)

  /** The event names exchanged through the store. */
  datatype EventName =
    | AddContactToList | ShowListContact | DeleteRejectedContact | ShowUserInfo
    | UpdateContactStatus | AddGroupToList | DeleteContact | DeleteGroup | SelectedChat
    | ShowListMessages | ShowMessageToSend | OpenChatRequestReceived | UpdateStatusRequest

  /** The string under which each event is stored. */
  function Key(e: EventName): string {
    match e
    case AddContactToList => "add_contact_to_list"
    case ShowListContact => "show_list_contact"
    case DeleteRejectedContact => "delete_rejected_contact"
    case ShowUserInfo => "show_user_info"
    case UpdateContactStatus => "update_contact_status"
    case AddGroupToList => "add_group_to_list"
    case DeleteContact => "delete_contact"
    case DeleteGroup => "delete_group"
    case SelectedChat => "selected_chat"
    case ShowListMessages => "show_list_messages"
    case ShowMessageToSend => "show_message_to_send"
    case OpenChatRequestReceived => "open_chat_request_received"
    case UpdateStatusRequest => "update_status_request"
  }

  /** Distinct events are stored under distinct strings, so keying the store by `EventName` is
      keying it by string. */
  lemma KeyInjective(a: EventName, b: EventName)
    ensures Key(a) == Key(b) ==> a == b
  {
  }

  type Bus = map<EventName, Payload>

  /** JavaScript truthiness of a payload: objects and arrays are truthy, the empty string is not. */
  predicate Truthy(p: Payload) {
    match p
    case Nothing => false
    case Text(s) => s != ""
    case _ => true
  }

  /** A consumer's `if (getEventData(name))` succeeds. */
  predicate Live(ev: Bus, name: EventName) {
    name in ev && Truthy(ev[name])
  }

  /** The payload stored when a possibly-undefined name is passed to `addEvent`. */
  function NamePayload(name: Option<string>): Payload {
    if name.Some? then Text(name.value) else Nothing
  }

  /**
   * The payload shape each consumer dereferences when the payload is truthy. A payload of
   * another shape makes the source throw or store a non-array; the poll passes require this.
   */
  predicate Shaped(name: EventName, p: Payload) {
    Truthy(p) ==>
      match name
      case AddContactToList | AddGroupToList => p.Record?
      case ShowListContact => p.RecordList?
      case DeleteRejectedContact => p.Text?
      case ShowUserInfo => p.User?
      case UpdateContactStatus => p.StatusUpdate?
      case OpenChatRequestReceived => p.Request?
      case ShowListMessages => p.MessageList?
      case ShowMessageToSend => p.SingleMessage?
      case _ => true
  }

  /** The payload under `name`, if any, has the shape its consumer dereferences. */
  predicate ShapedAt(ev: Bus, name: EventName) {
    name in ev ==> Shaped(name, ev[name])
  }

  /** The name keeps its presence and its payload. */
  predicate Kept(ev: Bus, ev': Bus, name: EventName) {
    (name in ev <==> name in ev') && (name in ev ==> ev'[name] == ev[name])
  }

  /** A live event is removed; a missing or falsy one is left as it was. */
  predicate Consumed(ev: Bus, ev': Bus, name: EventName) {
    if Live(ev, name) then name !in ev' else Kept(ev, ev', name)
  }

  /** One call on the store. */
  datatype BusOp = Put(name: EventName, payload: Payload) | Clear(name: EventName)

  function Apply(ev: Bus, op: BusOp): (r: Bus)
    ensures op.Put? ==> op.name in r && r[op.name] == op.payload
    ensures op.Clear? ==> op.name !in r
    ensures r.Keys <= ev.Keys + {op.name}
  {
    match op
    case Put(n, p) => ev[n := p]
    case Clear(n) => ev - {n}
  }

  /** The store after a history of calls, starting empty. */
  function Replay(ops: seq<BusOp>): (r: Bus)
    ensures forall n :: n in r ==> exists i :: 0 <= i < |ops| && ops[i] == Put(n, r[n])
  {
    if ops == [] then map[] else Apply(Replay(ops[..|ops| - 1]), ops[|ops| - 1])
  }

  /** The payload of the most recent `Put` of `name` not followed by a `Clear` of `name`. */
  function Latest(ops: seq<BusOp>, name: EventName): (r: Option<Payload>)
    ensures r.Some? ==> Put(name, r.value) in ops
  {
    if ops == [] then None
    else
      var last := ops[|ops| - 1];
      if last.name != name then Latest(ops[..|ops| - 1], name)
      else if last.Put? then Some(last.payload)
      else None
  }

  /** Reading a name after any history gives its latest unremoved payload, or nothing. */
  lemma {:induction false} ReplayIsLatest(ops: seq<BusOp>, name: EventName)
    ensures name in Replay(ops) <==> Latest(ops, name).Some?
    ensures name in Replay(ops) ==> Replay(ops)[name] == Latest(ops, name).value
  {
    if ops != [] {
      ReplayIsLatest(ops[..|ops| - 1], name);
    }
  }

  /** The store itself: one mutable map from event name to payload. */
  class EventStore {
    var events: Bus

    constructor ()
      ensures events == map[]
    {
      events := map[];
    }

    function GetEventData(name: EventName): (r: Option<Payload>)
      reads this
      ensures r.Some? <==> name in events
      ensures r.Some? ==> r.value == events[name]
    {
      if name in events then Some(events[name]) else None
    }

    method AddEvent(name: EventName, payload: Payload)
      modifies this
      ensures events == Apply(old(events), Put(name, payload))
    {
      events := events[name := payload];
    }

    method RemoveEvent(name: EventName)
      modifies this
      ensures events == Apply(old(events), Clear(name))
      ensures name !in old(events) ==> events == old(events)
    {
      events := events - {name};
    }
  }
}
