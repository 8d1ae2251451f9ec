# Chat reconciliation core: a Dafny model

This project models the client-side chat reconciliation layer of the repository. Four view
components talk to each other only through a shared named-event store (`EventContext`), and
each folds the events it reads into its own state:

- **the contact directory** (`ContactList`) holds an ordered list of contact records, the
  selected tile, the logged-in user's record and a case-insensitive search view;
- **the contact tile** (`Contact`) derives a background class and a badge from "selected?" and
  the request status, and emits `selected_chat` when an unselected tile is clicked;
- **the message log** (`Chat`) is replaced by a snapshot event and appended to by a
  single-message event, unless the message has no visible text;
- **the friend-request resolver** (`RequestReceived`) captures one request from the store and,
  when the user accepts or rejects it, emits the notice for the transport and the
  `update_contact_status` event the directory consumes.

The store is a class over one map from event name to payload, with `addEvent`, `getEventData`
and `removeEvent`. Each component's poll effect is a `Poll` method that changes the map and
the component's fields. The directory's and the log's `Poll` are proved equal to a pure pass
function (`PollSpec`, `ChatPass`), and the properties of the pass are lemmas about that
function. The resolver's `Poll` has one step, and its contract states that step directly.

The directory pass is built from one step method per event name, in the order the source
handles them. The one exception is `show_user_info`: the source reads it fourth, but its
setter takes effect only at the next render, and none of the later steps changes that name
(`PassFrame`). Reading it at the end of the pass therefore gives the same value, and the
adopted login is the same.

Modelling conventions:
- A JavaScript value that may be `undefined` is an `Option`.
- `a || b` on strings is `OrElse`, which treats `""` as absent.
- A payload is *live* when it is truthy. `Nothing` (null, undefined, false, 0) and the empty
  string are not live, and a consumer neither handles nor removes them.
- Event names are a datatype. `Key` gives the exact string each one is stored under, and
  `KeyInjective` shows that keying by the datatype is keying by the string.
- Names are not checked for uniqueness. `addContact` appends a second record with the same name.
- Payloads of the wrong shape are not skipped. The poll passes require each live payload to
  have the shape its reader expects (`ShapedAt`, `DirectoryShaped`, `ChatShaped`).
  - Three readers go wrong on another shape:
    - `.map` throws on a `show_list_contact` that is not an array;
    - `request.to_user` throws on an `update_contact_status` without a request, once the list
      is non-empty;
    - a `show_list_messages` that is not an array is stored as the log.
  - For every other name, a wrong-shaped payload reads its missing fields as `undefined`. It
    then behaves like a modelled payload whose missing fields are `None`:
    - a contact record with every field absent;
    - a user or a request without names;
    - a message without text, which `addMessage` rejects;
    - a `delete_rejected_contact` that is not a string finds no record. The event is still
      removed.

Files:
- `wrappers.dfy`: `Option`.
- `events.dfy`: payloads, event names, the store.
- `text.dfy`: `trim`, `toLowerCase` and `includes`.
- `tile.dfy`: `Contact.tsx`.
- `directory.dfy`: `ContactList.tsx`.
- `messagelog.dfy`: `Chat.tsx`.
- `resolver.dfy`: `RequestReceived.tsx`.
- `flow.dfy`: properties that span the resolver and the directory.

## Model

| member | source | states |
|---|---|---|
| Events.KeyInjective | assets/js/hooks/ChatRoom/list/contactList/ContactList.tsx:16-53 | distinct event names are stored under distinct strings, so the store keyed by the name datatype is the store keyed by the source's strings |
| Events.Apply | assets/js/hooks/ChatRoom/list/contactList/ContactList.tsx:8 | one store call: an add stores its payload under its name, a remove deletes the name, and no other name appears |
| Events.Replay | assets/js/hooks/ChatRoom/list/contactList/ContactList.tsx:8 | every payload in the store after a history was put under its name by some call of that history |
| Events.Latest | assets/js/hooks/ChatRoom/list/contactList/ContactList.tsx:8 | the latest unremoved payload of a name is one the history put under it; `ReplayIsLatest` equates it with a read |
| Events.ReplayIsLatest | assets/js/hooks/ChatRoom/list/contactList/ContactList.tsx:8 | after any history of adds and removes, reading a name gives the payload of its latest add not followed by a remove, or nothing |
| Events.EventStore.GetEventData | assets/js/hooks/ChatRoom/list/contactList/ContactList.tsx:8 | `getEventData` returns a value exactly when the name is stored, and then its payload |
| Events.EventStore.AddEvent | assets/js/hooks/ChatRoom/list/contactList/ContactList.tsx:8 | `addEvent` overwrites the payload under the name and changes nothing else |
| Events.EventStore.RemoveEvent | assets/js/hooks/ChatRoom/list/contactList/ContactList.tsx:8 | `removeEvent` deletes the name and is a no-op when it is absent |
| Text.TrimStart | assets/js/hooks/ChatRoom/chat/Chat.tsx:34 | leading trim leaves a suffix; the removed prefix is white space and the result does not start with white space |
| Text.TrimEnd | assets/js/hooks/ChatRoom/chat/Chat.tsx:34 | trailing trim leaves a prefix; the removed suffix is white space and the result does not end with white space |
| Text.TrimEmptyIffBlank | assets/js/hooks/ChatRoom/chat/Chat.tsx:34 | a string trims to "" exactly when every character is white space |
| Text.Trim | assets/js/hooks/ChatRoom/chat/Chat.tsx:34 | `trim` gives a string no longer than its input that neither starts nor ends with white space (with `TrimStart`, `TrimEnd` and `TrimEmptyIffBlank`) |
| Text.Lower | assets/js/hooks/ChatRoom/list/contactList/ContactList.tsx:57 | lower-casing keeps the length, maps each ASCII upper-case letter to its lower-case letter, and keeps every other character; no upper-case ASCII letter remains |
| Text.Contains | assets/js/hooks/ChatRoom/list/contactList/ContactList.tsx:57 | `includes` holds only when the needle is no longer than the haystack; `ContainsAt` characterises it by offsets |
| Text.LowerIdempotent | assets/js/hooks/ChatRoom/list/contactList/ContactList.tsx:57 | lower-casing twice is lower-casing once |
| Text.ContainsAt | assets/js/hooks/ChatRoom/list/contactList/ContactList.tsx:57 | `includes` holds exactly when the needle starts at some offset of the haystack |
| Text.EmptyIsContained | assets/js/hooks/ChatRoom/list/contactList/ContactList.tsx:57 | every string includes the empty string |
| ContactTile.Background | assets/js/hooks/ChatRoom/list/contactList/Contact.tsx:14-25 | `getBackgroundContact` is grey exactly for the selected tile; `SelectedTileIsGrey` and `UnselectedBackground` give every case |
| ContactTile.BadgeClass | assets/js/hooks/ChatRoom/list/contactList/Contact.tsx:28-36 | `getStatusBadgeClass` gives a colour exactly for pending and rejected |
| ContactTile.Badge | assets/js/hooks/ChatRoom/list/contactList/Contact.tsx:55-58 | the badge is rendered exactly for pending and rejected and shows the status |
| ContactTile.SelectedTileIsGrey | assets/js/hooks/ChatRoom/list/contactList/Contact.tsx:14-25 | a selected tile is `bg-gray-300` whatever its status |
| ContactTile.UnselectedBackground | assets/js/hooks/ChatRoom/list/contactList/Contact.tsx:15-22 | an unselected tile is pink exactly for pending, red exactly for rejected, and has no class for any other or missing status |
| ContactTile.BadgeAgreesWithBackground | assets/js/hooks/ChatRoom/list/contactList/Contact.tsx:28-58 | the badge is shown exactly for pending and rejected, shows the status, is yellow for pending and red for rejected; an unselected tile is tinted exactly when it shows a badge |
| ContactTile.HandleChat | assets/js/hooks/ChatRoom/list/contactList/Contact.tsx:7-11 | an unselected tile emits `selected_chat` with its name and status and calls `onSelect`; a selected tile does neither |
| ContactDirectory.Normalize | assets/js/hooks/ChatRoom/list/contactList/ContactList.tsx:63-68 | each field of the new record comes from the contact field or its group fallback, and the group flag is copied |
| ContactDirectory.WithContact | assets/js/hooks/ChatRoom/list/contactList/ContactList.tsx:62-70 | exactly one record is appended and earlier records are untouched; its name is the nickname or else the group name, its image the profile image or else the group image, its status the request status or else the plain status, "" counting as absent |
| ContactDirectory.NormalizeAll | assets/js/hooks/ChatRoom/list/contactList/ContactList.tsx:25-27 | a list payload yields one record per raw record, each normalised at its own position |
| ContactDirectory.UpdateStatus | assets/js/hooks/ChatRoom/list/contactList/ContactList.tsx:72-85 | `updateContactStatus` keeps the length; `UpdateChangesOnlyPending`, `UpdateIdempotent` and `UpdateFollowsDirection` state what changes |
| ContactDirectory.UpdateChangesOnlyPending | assets/js/hooks/ChatRoom/list/contactList/ContactList.tsx:72-85 | the update keeps length and order, changes only the status field, leaves non-pending and uninvolved records equal, and gives every pending involved record the new status |
| ContactDirectory.UpdateIdempotent | assets/js/hooks/ChatRoom/list/contactList/ContactList.tsx:78-82 | applying the same update twice gives the list obtained by applying it once |
| ContactDirectory.UpdateFollowsDirection | assets/js/hooks/ChatRoom/list/contactList/ContactList.tsx:75-76 | when sender and receiver differ, a logged-in sender sees only the receiver's record change and a logged-in receiver only the sender's |
| ContactDirectory.FindIndex | assets/js/hooks/ChatRoom/list/contactList/ContactList.tsx:114 | `findIndex` returns the first position holding the name, or none exactly when no record has it |
| ContactDirectory.RemoveAtKeepsOthers | assets/js/hooks/ChatRoom/list/contactList/ContactList.tsx:122-123 | the splice removes exactly that record; the records before and after it keep their order |
| ContactDirectory.DeleteSpec | assets/js/hooks/ChatRoom/list/contactList/ContactList.tsx:112-131 | `deleteContact` keeps the login and either removes one record or changes nothing at all; `DeleteAbsentIsNoop` and `DeleteRemovesFirst` give the two cases |
| ContactDirectory.DeleteAbsentIsNoop | assets/js/hooks/ChatRoom/list/contactList/ContactList.tsx:114-115 | deleting a name no record has leaves the list, the selection and the store unchanged |
| ContactDirectory.DeleteRemovesFirst | assets/js/hooks/ChatRoom/list/contactList/ContactList.tsx:116-127 | deleting a present name removes its first record only, emits `delete_group` or `delete_contact` with the name, and clears the selection exactly when the deleted name is selected |
| ContactDirectory.FilterByName | assets/js/hooks/ChatRoom/list/contactList/ContactList.tsx:56-58 | the filter keeps no more records than the list, and every kept record matches the term |
| ContactDirectory.SearchView | assets/js/hooks/ChatRoom/list/contactList/ContactList.tsx:55-60 | the filter fails exactly when some record has no name |
| ContactDirectory.FilterIsSubsequence | assets/js/hooks/ChatRoom/list/contactList/ContactList.tsx:56-58 | the filtered view is the list with some records left out, the rest in their original order |
| ContactDirectory.FilterMembers | assets/js/hooks/ChatRoom/list/contactList/ContactList.tsx:56-58 | a record is in the view exactly when it is in the list and its lower-cased name includes the lower-cased term |
| ContactDirectory.FilterCounts | assets/js/hooks/ChatRoom/list/contactList/ContactList.tsx:56-58 | each matching record occurs in the view as often as in the list, and no other record occurs |
| ContactDirectory.FilterEmptyTermKeepsAll | assets/js/hooks/ChatRoom/list/contactList/ContactList.tsx:91-93 | with the empty term the view is the whole list |
| ContactDirectory.SearchViewSpec | assets/js/hooks/ChatRoom/list/contactList/ContactList.tsx:55-60 | when every record is named, the view exists, is a subsequence, holds exactly the matching records with their multiplicity in the list, and is the whole list for the empty term |
| ContactDirectory.FilterIgnoresCase | assets/js/hooks/ChatRoom/list/contactList/ContactList.tsx:57 | filtering by a term and by its lower-case form give the same view |
| ContactDirectory.SearchIgnoresCase | assets/js/hooks/ChatRoom/list/contactList/ContactList.tsx:57 | searching for a term and for its lower-case form show the same view, named or not |
| ContactDirectory.AddDir | assets/js/hooks/ChatRoom/list/contactList/ContactList.tsx:17-21 | the add steps change only the contact list |
| ContactDirectory.ListDir | assets/js/hooks/ChatRoom/list/contactList/ContactList.tsx:23-29 | the list step changes only the contact list |
| ContactDirectory.StatusDir | assets/js/hooks/ChatRoom/list/contactList/ContactList.tsx:42-46 | the status step changes only the contact list |
| ContactDirectory.DeleteRejected | assets/js/hooks/ChatRoom/list/contactList/ContactList.tsx:31-35 | the deletion step keeps the login and the payload shapes |
| ContactDirectory.DeleteRejectedFrame | assets/js/hooks/ChatRoom/list/contactList/ContactList.tsx:31-35 | the deletion step consumes `delete_rejected_contact` and touches no other name but `delete_contact` |
| ContactDirectory.DeleteRejectedAsWritten | assets/js/hooks/ChatRoom/list/contactList/ContactList.tsx:31-35 | the deletion step with the lookup the source performs keeps the login and consumes `delete_rejected_contact` |
| ContactDirectory.AsWrittenAgreesOnSeenRecords | assets/js/hooks/ChatRoom/list/contactList/ContactList.tsx:114-123 | the source's lookup and the corrected one agree unless the first record with the name was added in the same pass |
| ContactDirectory.RejectionInSamePassIsLost | assets/js/hooks/ChatRoom/list/contactList/ContactList.tsx:17-35 | a contact added and rejected in one pass stays in the list as written, while its rejection event is consumed; the corrected step removes it |
| ContactDirectory.PollSpec | assets/js/hooks/ChatRoom/list/contactList/ContactList.tsx:16-53 | one pass leaves the store fit for the next pass; the `Poll*` lemmas, `PassFrame` and `ResolutionReachesDirectory` state what it does |
| ContactDirectory.PassFrame | assets/js/hooks/ChatRoom/list/contactList/ContactList.tsx:16-53 | at each name a pass consumes the five names it handles and keeps every other name except `delete_contact` |
| ContactDirectory.PollConsumes | assets/js/hooks/ChatRoom/list/contactList/ContactList.tsx:16-53 | after a pass, each of the five consumed names is gone or was never live |
| ContactDirectory.PollKeepsOthers | assets/js/hooks/ChatRoom/list/contactList/ContactList.tsx:37-40 | a pass leaves `show_user_info`, `delete_group` and every name it does not consume, except `delete_contact`, untouched |
| ContactDirectory.PollAdoptsLogin | assets/js/hooks/ChatRoom/list/contactList/ContactList.tsx:37-40 | a pass adopts a live `show_user_info` record as the login and keeps the old login otherwise |
| ContactDirectory.PollAppendsList | assets/js/hooks/ChatRoom/list/contactList/ContactList.tsx:23-29 | a `show_list_contact` payload is appended in its own order |
| ContactDirectory.PollDeletesRejectedAsContact | assets/js/hooks/ChatRoom/list/contactList/ContactList.tsx:31-35 | `delete_rejected_contact` deletes with `is_group` false and the event is removed |
| ContactDirectory.PollUpdatesWithPreviousLogin | assets/js/hooks/ChatRoom/list/contactList/ContactList.tsx:37-46 | a status update is resolved against the login held before the pass, even when the pass delivers a new one |
| ContactDirectory.ContactList.AddContact | assets/js/hooks/ChatRoom/list/contactList/ContactList.tsx:62-70 | the stored list becomes the list with the normalised record appended |
| ContactDirectory.ContactList.AddContacts | assets/js/hooks/ChatRoom/list/contactList/ContactList.tsx:25-27 | adding each record of a list in turn appends all of them in order |
| ContactDirectory.ContactList.UpdateContactStatus | assets/js/hooks/ChatRoom/list/contactList/ContactList.tsx:72-85 | the stored list becomes its update against the current login |
| ContactDirectory.ContactList.DeleteContact | assets/js/hooks/ChatRoom/list/contactList/ContactList.tsx:112-131 | list, selection and store become what the deletion specifies |
| ContactDirectory.ContactList.PollAdd | assets/js/hooks/ChatRoom/list/contactList/ContactList.tsx:17-21 | one add step on the component and the store |
| ContactDirectory.ContactList.PollList | assets/js/hooks/ChatRoom/list/contactList/ContactList.tsx:23-29 | the list step on the component and the store |
| ContactDirectory.ContactList.PollDeleteRejected | assets/js/hooks/ChatRoom/list/contactList/ContactList.tsx:31-35 | the deletion step on the component and the store |
| ContactDirectory.ContactList.PollStatus | assets/js/hooks/ChatRoom/list/contactList/ContactList.tsx:42-46 | the status step on the component and the store |
| ContactDirectory.ContactList.Poll | assets/js/hooks/ChatRoom/list/contactList/ContactList.tsx:16-53 | the component and the store after the poll effect are the pass function of their old values |
| ContactDirectory.ContactList.RefreshFilter | assets/js/hooks/ChatRoom/list/contactList/ContactList.tsx:55-60 | the filtered view becomes the search view, and the refresh fails exactly when a record has no name |
| ContactDirectory.ContactList.HandleSearch | assets/js/hooks/ChatRoom/list/contactList/ContactList.tsx:87-89 | the search term becomes the typed value |
| ContactDirectory.ContactList.ClearSearch | assets/js/hooks/ChatRoom/list/contactList/ContactList.tsx:91-93 | the search term becomes empty |
| ContactDirectory.ContactList.ClickTile | assets/js/hooks/ChatRoom/list/contactList/ContactList.tsx:153-156 | clicking a tile selects its name and emits `selected_chat` only when it was not already selected |
| ContactDirectory.ContactList.HandleMenuClick | assets/js/hooks/ChatRoom/list/contactList/ContactList.tsx:105-110 | the "delete" action deletes the menu's contact; any other action changes nothing |
| MessageLog.Acceptable | assets/js/hooks/ChatRoom/chat/Chat.tsx:34-36 | an accepted message has a text that is not all white space; `AcceptableIffVisibleText` gives the converse |
| MessageLog.AcceptableIffVisibleText | assets/js/hooks/ChatRoom/chat/Chat.tsx:34-36 | a message is accepted exactly when it has a text with at least one non-space character |
| MessageLog.WithMessage | assets/js/hooks/ChatRoom/chat/Chat.tsx:33-38 | an accepted message is appended at the end with the earlier log unchanged; a rejected one leaves the log as it was |
| MessageLog.BlankTextRejected | assets/js/hooks/ChatRoom/chat/Chat.tsx:34 | a message whose text is all white space is rejected |
| MessageLog.ChatPass | assets/js/hooks/ChatRoom/chat/Chat.tsx:13-31 | one pass leaves the store fit for the next pass, and the log shrinks only when a snapshot replaces it; `ChatPassLog` and `ChatPassEvents` give the rest |
| MessageLog.ChatPassLog | assets/js/hooks/ChatRoom/chat/Chat.tsx:13-31 | after a pass the log is the snapshot if one was live, else the old log, followed by the single message when live and accepted |
| MessageLog.ChatPassEvents | assets/js/hooks/ChatRoom/chat/Chat.tsx:13-31 | snapshot and single message are removed when live, even when the message is rejected; the user record stays in the store and is adopted; other names are untouched |
| MessageLog.SnapshotReplaces | assets/js/hooks/ChatRoom/chat/Chat.tsx:14-18 | a snapshot replaces the log wholesale |
| MessageLog.SendAppends | assets/js/hooks/ChatRoom/chat/Chat.tsx:20-24 | a single message is added through `addMessage` |
| MessageLog.SnapshotThenSend | assets/js/hooks/ChatRoom/chat/Chat.tsx:14-24 | loading two messages and then sending a third gives the three in order |
| MessageLog.SendBlankKeepsLog | assets/js/hooks/ChatRoom/chat/Chat.tsx:34-36 | sending a message of two spaces leaves the log as it was |
| MessageLog.Chat.AddMessage | assets/js/hooks/ChatRoom/chat/Chat.tsx:33-38 | the stored log becomes the guarded append |
| MessageLog.Chat.Poll | assets/js/hooks/ChatRoom/chat/Chat.tsx:13-31 | the component and the store after the poll effect are the pass function of their old values |
| FriendRequests.Resolution | assets/js/hooks/ChatRoom/friend_request/RequestReceived.tsx:19-22 | `update_status_request` carries the status, the receiver as contact name and the sender as from-name; `update_contact_status` carries the request and the status; nothing else changes |
| FriendRequests.RequestReceived.Poll | assets/js/hooks/ChatRoom/friend_request/RequestReceived.tsx:11-17 | a live request is captured and its event removed; otherwise the held request and the store are unchanged |
| FriendRequests.RequestReceived.HandleStatus | assets/js/hooks/ChatRoom/friend_request/RequestReceived.tsx:19-22 | needs a captured request; emits the two events of the resolution and keeps the request |
| FriendRequests.RequestReceived.Accept | assets/js/hooks/ChatRoom/friend_request/RequestReceived.tsx:34-36 | the accept button resolves with "accepted" |
| FriendRequests.RequestReceived.Reject | assets/js/hooks/ChatRoom/friend_request/RequestReceived.tsx:37-39 | the reject button resolves with "rejected" |
| RequestFlow.ResolutionReachesDirectory | assets/js/hooks/ChatRoom/list/contactList/ContactList.tsx:42-46 | the directory pass after `handleStatus` turns the records it held into their update against its login, consumes the update and keeps the transport notice |
| RequestFlow.PendingContactResolved | assets/js/hooks/ChatRoom/list/contactList/ContactList.tsx:75-79 | a pending record involved with the login takes the chosen status after the next pass |
| RequestFlow.AnswerRequest | assets/js/hooks/ChatRoom/friend_request/RequestReceived.tsx:19-22 | on fresh components, the receiver answering a sender's request gives the sender's pending record the answer after the next directory pass |

## Findings

| source | as written | input that shows it | evidently intended | confidence | as-written member | corrected member |
|---|---|---|---|---|---|---|
| assets/js/hooks/ChatRoom/list/contactList/ContactList.tsx:114 | inside the poll effect, `deleteContact` looks the name up in `contacts` as rendered before the pass, while the splice applies to the list the pass has built | one pass that sees `add_contact_to_list` for "bob" and `delete_rejected_contact` "bob": the record is appended, the lookup misses it, the rejection event is removed and "bob" stays | the rejected contact is removed | not executed; medium, because it needs both events live in one pass | ContactDirectory.DeleteRejectedAsWritten | ContactDirectory.DeleteRejected |

`RejectionInSamePassIsLost` shows the discrepancy on the input above. `PollSpec` and
`ContactList.Poll` use the corrected step, whose properties are stated by `DeleteRejectedFrame`
and `PollDeletesRejectedAsContact`. `AsWrittenAgreesOnSeenRecords` shows that the two steps
agree whenever the first record with the name was present before the pass.

## Left out

- Rendering is not modelled: JSX, antd components, Tailwind classes other than the tile's
  background and badge classes, the image shown on a tile, and the resolver's background image
  path.
- The context menu's position and visibility (`handleContextMenu`, lines 95-103 and 134 of
  `ContactList.tsx`) are mouse-coordinate chrome. Only `handleMenuClick` is modelled, with the
  menu's contact passed in.
- Scroll-to-bottom in `Chat.tsx` is a DOM side effect and is not modelled.
- The `EventContext` implementation is not part of this model. The store is the abstract map
  above; observer notification, version numbers and re-render triggering are not modelled.
- React scheduling is not modelled. Each poll effect is one atomic method, and queued setter
  updates are applied in the order they were queued. The login a pass adopts is seen only by
  the next pass, as in the source.
- ContactDirectory.ContactList.DeleteContact: outside a poll pass, the rendered list and the
  list the update applies to are the same list, so one list is used.
- Text.Lower: only ASCII letters are lower-cased. `toLowerCase` also folds other scripts.
- Text.TrimStart: white space is the ECMAScript set of white-space and line-terminator code
  points. Unicode normalisation is not modelled.
- ContactDirectory.ContactList.Poll: requires every live payload the directory reads to have
  the shape its reader expects. A non-array `show_list_contact`, or an `update_contact_status`
  without a request, makes the source throw. For the other names the excluded payloads behave
  like modelled ones with the missing fields `None`, as described above.
- MessageLog.Chat.Poll: requires the same of the log's payloads. A non-array snapshot is stored
  as the log. A single message without the message shape is rejected like one without text.
- FriendRequests.RequestReceived.Poll: requires the same of `open_chat_request_received`. Any
  other truthy value is stored and read like a request without names.
- A missing `is_group` is read as `false`. The source stores `undefined`, which every reader
  treats as false.
- Only the user record's nickname is modelled. The message log stores the whole record, but
  nothing in the core reads the rest.
- ContactDirectory.ContactList.HandleSearch: takes the typed text. The search button, shown
  while the term is empty, also calls `handleSearch` with a click event; the value that event
  carries depends on the element clicked and is not modelled.
- Event names other than the thirteen the core reads or writes are not modelled.
