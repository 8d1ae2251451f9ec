/**
 * The contact directory (`ContactList`): an ordered list of contact records folded from events,
 * the selected tile, the current user's login record and a case-insensitive search view.
 */
module ContactDirectory {
  import opened Wrappers
  import opened Events
  import opened Text
  import ContactTile

  /** A normalised directory record (name, image, request status, group flag). */
  datatype Contact = Contact(name: Option<string>, image: Option<string>, status: Option<string>, isGroup: bool)

  /** The selected tile: `null`, or the name a tile's `onSelect` stored (possibly undefined). */
  datatype Selection = NoSelection | Selected(name: Option<string>)

  /** The state a poll pass folds events into. */
  datatype Directory = Directory(contacts: seq<Contact>, selected: Selection, login: UserInfo)

  // ---------------------------------------------------------------------------------------------
  // addContact

  /** JavaScript `a || b` on optional strings: the empty string counts as absent. */
  function OrElse(a: Option<string>, b: Option<string>): Option<string> {
    if a.Some? && a.value != "" then a else b
  }

  /** The record `addContact` builds from a contact- or group-shaped payload. */
  function Normalize(raw: RawContact): (c: Contact)
    ensures c.name == raw.nickname || c.name == raw.groupName
    ensures c.image == raw.profileImage || c.image == raw.groupImage
    ensures c.status == raw.requestStatus || c.status == raw.status
    ensures c.isGroup == raw.isGroup
  {
    Contact(OrElse(raw.nickname, raw.groupName), OrElse(raw.profileImage, raw.groupImage),
            OrElse(raw.requestStatus, raw.status), raw.isGroup)
  }

  /** `addContact`: exactly one record is appended, earlier records are untouched, and no check
      for a duplicate name is made. */
  function WithContact(cs: seq<Contact>, raw: RawContact): (r: seq<Contact>)
    ensures |r| == |cs| + 1 && r[..|cs|] == cs
    ensures r[|cs|].name == if raw.nickname.Some? && raw.nickname.value != "" then raw.nickname else raw.groupName
    ensures r[|cs|].image == if raw.profileImage.Some? && raw.profileImage.value != "" then raw.profileImage else raw.groupImage
    ensures r[|cs|].status == if raw.requestStatus.Some? && raw.requestStatus.value != "" then raw.requestStatus else raw.status
    ensures r[|cs|].isGroup == raw.isGroup
  {
    cs + [Normalize(raw)]
  }

  /** The records of a `show_list_contact` payload, in payload order. */
  function NormalizeAll(raws: seq<RawContact>): (r: seq<Contact>)
    ensures |r| == |raws|
    ensures forall i :: 0 <= i < |raws| ==> r[i] == Normalize(raws[i])
  {
    seq(|raws|, i requires 0 <= i < |raws| => Normalize(raws[i]))
  }

  // ---------------------------------------------------------------------------------------------
  // updateContactStatus

  /** The record is one side of the request and the logged-in user is the other side. */
  predicate Involved(c: Contact, request: FriendRequest, login: Option<string>) {
    (c.name == request.toUser && login == request.fromUser)
    || (c.name == request.fromUser && login == request.toUser)
  }

  function Resolve(c: Contact, request: FriendRequest, newStatus: Option<string>, login: Option<string>): Contact {
    if Involved(c, request, login) && c.status == Some(PENDING) then c.(status := newStatus) else c
  }

  /** `updateContactStatus`: map every record through `Resolve`. */
  function UpdateStatus(cs: seq<Contact>, request: FriendRequest, newStatus: Option<string>, login: Option<string>): (r: seq<Contact>)
    ensures |r| == |cs|
  {
    seq(|cs|, i requires 0 <= i < |cs| => Resolve(cs[i], request, newStatus, login))
  }

  /** The list keeps its length and order; only the status field of pending, involved records
      changes, and every such record takes the new status. */
  lemma UpdateChangesOnlyPending(cs: seq<Contact>, request: FriendRequest, newStatus: Option<string>, login: Option<string>)
    ensures var r := UpdateStatus(cs, request, newStatus, login);
      && |r| == |cs|
      && (forall i :: 0 <= i < |cs| ==>
            r[i].name == cs[i].name && r[i].image == cs[i].image && r[i].isGroup == cs[i].isGroup)
      && (forall i :: 0 <= i < |cs| && cs[i].status != Some(PENDING) ==> r[i] == cs[i])
      && (forall i :: 0 <= i < |cs| && !Involved(cs[i], request, login) ==> r[i] == cs[i])
      && (forall i :: 0 <= i < |cs| && Involved(cs[i], request, login) && cs[i].status == Some(PENDING) ==>
            r[i].status == newStatus)
  {
  }

  /** Applying the same update twice gives the list obtained by applying it once. */
  lemma UpdateIdempotent(cs: seq<Contact>, request: FriendRequest, newStatus: Option<string>, login: Option<string>)
    ensures UpdateStatus(UpdateStatus(cs, request, newStatus, login), request, newStatus, login)
         == UpdateStatus(cs, request, newStatus, login)
  {
  }

  /** With a genuine request (sender differs from receiver), the logged-in sender can only see the
      receiver's record change, and the logged-in receiver only the sender's. */
  lemma UpdateFollowsDirection(cs: seq<Contact>, request: FriendRequest, newStatus: Option<string>, login: Option<string>)
    requires request.fromUser != request.toUser
    ensures var r := UpdateStatus(cs, request, newStatus, login);
      && (login == request.fromUser ==> forall i :: 0 <= i < |cs| && r[i] != cs[i] ==> cs[i].name == request.toUser)
      && (login == request.toUser ==> forall i :: 0 <= i < |cs| && r[i] != cs[i] ==> cs[i].name == request.fromUser)
  {
  }

  // ---------------------------------------------------------------------------------------------
  // deleteContact

  /** `findIndex` by name: the position of the first record with that name, if any. */
  function FindIndex(cs: seq<Contact>, name: Option<string>): (r: Option<nat>)
    ensures r.None? <==> forall i :: 0 <= i < |cs| ==> cs[i].name != name
    ensures r.Some? ==> r.value < |cs| && cs[r.value].name == name
    ensures r.Some? ==> forall j :: 0 <= j < r.value ==> cs[j].name != name
  {
    if cs == [] then None
    else if cs[0].name == name then Some(0)
    else match FindIndex(cs[1..], name)
      case None => None
      case Some(k) => Some(k + 1)
  }

  /** `splice(i, 1)` on a copy of the list. */
  function RemoveAt(cs: seq<Contact>, i: nat): seq<Contact>
    requires i < |cs|
  {
    cs[..i] + cs[i + 1..]
  }

  /** Splicing out position `i` removes that one record and keeps the others in order. */
  lemma RemoveAtKeepsOthers(cs: seq<Contact>, i: nat)
    requires i < |cs|
    ensures var r := RemoveAt(cs, i);
      && |r| == |cs| - 1
      && (forall j :: 0 <= j < i ==> r[j] == cs[j])
      && (forall j :: i <= j < |r| ==> r[j] == cs[j + 1])
      && multiset(r) + multiset{cs[i]} == multiset(cs)
  {
    assert cs == cs[..i] + [cs[i]] + cs[i + 1..];
  }

  /** The notification `deleteContact` emits for a group or a contact. */
  function DeleteEventName(isGroup: bool): EventName {
    if isGroup then DeleteGroup else DeleteContact
  }

  /** `deleteContact({name, is_group})` on the directory and the store. */
  function DeleteSpec(d: Directory, ev: Bus, name: Option<string>, isGroup: bool): (r: (Directory, Bus))
    ensures r.0.login == d.login
    ensures |r.0.contacts| == |d.contacts| || |r.0.contacts| == |d.contacts| - 1
    ensures |r.0.contacts| == |d.contacts| ==> r == (d, ev)
  {
    match FindIndex(d.contacts, name)
    case None => (d, ev)
    case Some(i) =>
      (d.(contacts := RemoveAt(d.contacts, i),
          selected := if d.selected == Selected(name) then NoSelection else d.selected),
       ev[DeleteEventName(isGroup) := NamePayload(name)])
  }

  /** Deleting a name no record has changes nothing: not the list, the selection or the store. */
  lemma DeleteAbsentIsNoop(d: Directory, ev: Bus, name: Option<string>, isGroup: bool)
    requires forall i :: 0 <= i < |d.contacts| ==> d.contacts[i].name != name
    ensures DeleteSpec(d, ev, name, isGroup) == (d, ev)
  {
  }

  /** Deleting a present name removes exactly its first record, keeps the order of the rest,
      emits `delete_group` or `delete_contact` with the name, and clears the selection exactly
      when the selected name is the deleted one. */
  lemma DeleteRemovesFirst(d: Directory, ev: Bus, name: Option<string>, isGroup: bool, i: nat)
    requires i < |d.contacts| && d.contacts[i].name == name
    requires forall j :: 0 <= j < i ==> d.contacts[j].name != name
    ensures var (d', ev') := DeleteSpec(d, ev, name, isGroup);
      && d'.contacts == d.contacts[..i] + d.contacts[i + 1..]
      && |d'.contacts| == |d.contacts| - 1
      && multiset(d'.contacts) + multiset{d.contacts[i]} == multiset(d.contacts)
      && ev' == ev[(if isGroup then DeleteGroup else DeleteContact) := NamePayload(name)]
      && (d'.selected == NoSelection <==> d.selected == Selected(name) || d.selected == NoSelection)
      && (d.selected != Selected(name) ==> d'.selected == d.selected)
      && d'.login == d.login
  {
    RemoveAtKeepsOthers(d.contacts, i);
  }

  // ---------------------------------------------------------------------------------------------
  // search

  predicate AllNamed(cs: seq<Contact>) {
    forall i :: 0 <= i < |cs| ==> cs[i].name.Some?
  }

  /** The filter's test: the lower-cased name includes the lower-cased term. */
  predicate Matches(c: Contact, term: string)
    requires c.name.Some?
  {
    Contains(Lower(c.name.value), Lower(term))
  }

  /** The filter itself: keeps the matching records, in order. */
  function FilterByName(cs: seq<Contact>, term: string): (r: seq<Contact>)
    requires AllNamed(cs)
    ensures |r| <= |cs| && AllNamed(r)
    ensures forall i :: 0 <= i < |r| ==> Matches(r[i], term)
  {
    if cs == [] then []
    else (if Matches(cs[0], term) then [cs[0]] else []) + FilterByName(cs[1..], term)
  }

  /** The search effect: the filtered view, or `None` when a record has no name (the source's
      `contact.name.toLowerCase()` throws then). */
  function SearchView(cs: seq<Contact>, term: string): (r: Option<seq<Contact>>)
    ensures r.None? <==> exists i :: 0 <= i < |cs| && cs[i].name.None?
  {
    if AllNamed(cs) then Some(FilterByName(cs, term)) else None
  }

  /** The filter ignores the case of the term. */
  lemma {:induction false} FilterIgnoresCase(cs: seq<Contact>, term: string)
    requires AllNamed(cs)
    ensures FilterByName(cs, Lower(term)) == FilterByName(cs, term)
  {
    if cs != [] {
      LowerIdempotent(term);
      FilterIgnoresCase(cs[1..], term);
    }
  }

  /** Searching for a term and for its lower-case form shows the same view. */
  lemma SearchIgnoresCase(cs: seq<Contact>, term: string)
    ensures SearchView(cs, Lower(term)) == SearchView(cs, term)
  {
    if AllNamed(cs) {
      FilterIgnoresCase(cs, term);
    }
  }

  /** `sub` is `cs` with some records left out, the rest in their original order. */
  predicate IsSubsequence(sub: seq<Contact>, cs: seq<Contact>)
    decreases |cs|
  {
    if sub == [] then true
    else if cs == [] then false
    else if sub[0] == cs[0] then IsSubsequence(sub[1..], cs[1..])
    else IsSubsequence(sub, cs[1..])
  }

  lemma {:induction false} FilterIsSubsequence(cs: seq<Contact>, term: string)
    requires AllNamed(cs)
    ensures IsSubsequence(FilterByName(cs, term), cs)
  {
    if cs != [] {
      FilterIsSubsequence(cs[1..], term);
      var rest := FilterByName(cs[1..], term);
      if Matches(cs[0], term) {
        assert FilterByName(cs, term) == [cs[0]] + rest;
        assert ([cs[0]] + rest)[1..] == rest;
      } else {
        assert FilterByName(cs, term) == rest;
        SkipHeadSubsequence(rest, cs);
      }
    }
  }

  /** A subsequence of the tail is a subsequence of the whole list. */
  lemma {:induction false} SkipHeadSubsequence(sub: seq<Contact>, cs: seq<Contact>)
    requires cs != [] && IsSubsequence(sub, cs[1..])
    ensures IsSubsequence(sub, cs)
    decreases |cs|, 0
  {
    if sub != [] && sub[0] == cs[0] {
      // cs[1..] contains sub in order; so does cs[2..] contain sub[1..] after its match
      SubsequenceTail(sub, cs[1..]);
    }
  }

  /** Dropping the first element of a subsequence keeps it a subsequence. */
  lemma {:induction false} SubsequenceTail(sub: seq<Contact>, cs: seq<Contact>)
    requires sub != [] && IsSubsequence(sub, cs)
    ensures IsSubsequence(sub[1..], cs)
    decreases |cs|, 1
  {
    assert cs != [];
    if sub[0] == cs[0] {
      if sub[1..] != [] {
        SkipHeadSubsequence(sub[1..], cs);
      }
    } else {
      SubsequenceTail(sub, cs[1..]);
      if sub[1..] != [] {
        SkipHeadSubsequence(sub[1..], cs);
      }
    }
  }

  lemma {:induction false} FilterMembers(cs: seq<Contact>, term: string, c: Contact)
    requires AllNamed(cs)
    ensures c in FilterByName(cs, term) <==> c in cs && c.name.Some? && Matches(c, term)
  {
    if cs != [] {
      FilterMembers(cs[1..], term, c);
    }
  }

  /** Each matching record occurs in the view as often as in the list; no other record occurs. */
  lemma {:induction false} FilterCounts(cs: seq<Contact>, term: string, c: Contact)
    requires AllNamed(cs)
    ensures multiset(FilterByName(cs, term))[c] == if c.name.Some? && Matches(c, term) then multiset(cs)[c] else 0
  {
    if cs != [] {
      FilterCounts(cs[1..], term, c);
      assert cs == [cs[0]] + cs[1..];
    }
  }

  lemma {:induction false} FilterEmptyTermKeepsAll(cs: seq<Contact>)
    requires AllNamed(cs)
    ensures FilterByName(cs, "") == cs
  {
    if cs != [] {
      EmptyIsContained(Lower(cs[0].name.value));
      FilterEmptyTermKeepsAll(cs[1..]);
    }
  }

  /** The search view keeps the original order, holds exactly the records whose lower-cased name
      includes the lower-cased term, each as many times as the list does, and an empty term (after `clearSearch`) shows every record. */
  lemma SearchViewSpec(cs: seq<Contact>, term: string)
    requires AllNamed(cs)
    ensures SearchView(cs, term).Some?
    ensures IsSubsequence(SearchView(cs, term).value, cs)
    ensures forall c :: c in SearchView(cs, term).value <==> c in cs && c.name.Some? && Matches(c, term)
    ensures forall c :: multiset(SearchView(cs, term).value)[c] ==
                          if c.name.Some? && Matches(c, term) then multiset(cs)[c] else 0
    ensures SearchView(cs, "") == Some(cs)
  {
    FilterIsSubsequence(cs, term);
    forall c ensures c in FilterByName(cs, term) <==> c in cs && c.name.Some? && Matches(c, term) {
      FilterMembers(cs, term, c);
    }
    forall c ensures multiset(FilterByName(cs, term))[c] ==
                       if c.name.Some? && Matches(c, term) then multiset(cs)[c] else 0 {
      FilterCounts(cs, term, c);
    }
    FilterEmptyTermKeepsAll(cs);
  }

  // ---------------------------------------------------------------------------------------------
  // the poll pass, one step per event name, in the order the source reads them

  /** The payloads of the names the directory reads have the shapes it dereferences. */
  predicate DirectoryShaped(ev: Bus) {
    && ShapedAt(ev, AddContactToList) && ShapedAt(ev, ShowListContact) && ShapedAt(ev, DeleteRejectedContact)
    && ShapedAt(ev, ShowUserInfo) && ShapedAt(ev, UpdateContactStatus) && ShapedAt(ev, AddGroupToList)
  }

  /** The store once a consumer has handled `name`: removed if it was live, else untouched. */
  function Ack(ev: Bus, name: EventName): (r: Bus)
    ensures DirectoryShaped(ev) ==> DirectoryShaped(r)
  {
    if Live(ev, name) then ev - {name} else ev
  }

  /** `add_contact_to_list` / `add_group_to_list`: append the record. */
  function AddDir(d: Directory, ev: Bus, name: EventName): (r: Directory)
    requires DirectoryShaped(ev) && (name == AddContactToList || name == AddGroupToList)
    ensures r.selected == d.selected && r.login == d.login
  {
    if Live(ev, name) then d.(contacts := WithContact(d.contacts, ev[name].raw)) else d
  }

  /** `show_list_contact`: append each record of the list in turn. */
  function ListDir(d: Directory, ev: Bus): (r: Directory)
    requires DirectoryShaped(ev)
    ensures r.selected == d.selected && r.login == d.login
  {
    if Live(ev, ShowListContact) then d.(contacts := d.contacts + NormalizeAll(ev[ShowListContact].raws)) else d
  }

  /** `delete_rejected_contact`: delete the named contact as a non-group, then remove the event. */
  function DeleteRejected(d: Directory, ev: Bus): (r: (Directory, Bus))
    requires DirectoryShaped(ev)
    ensures DirectoryShaped(r.1) && r.0.login == d.login
  {
    if Live(ev, DeleteRejectedContact) then
      var (d', ev') := DeleteSpec(d, ev, Some(ev[DeleteRejectedContact].s), false);
      (d', ev' - {DeleteRejectedContact})
    else (d, ev)
  }

  /**
   * The deletion step as the source runs it inside the poll effect: `findIndex` reads the list as
   * rendered before the pass (`seen`), while the splice applies to the list the pass has built so
   * far, of which `seen` is a prefix. A record added earlier in the same pass is not found.
   */
  function DeleteRejectedAsWritten(seen: seq<Contact>, d: Directory, ev: Bus): (r: (Directory, Bus))
    requires DirectoryShaped(ev) && seen <= d.contacts
    ensures r.0.login == d.login && Consumed(ev, r.1, DeleteRejectedContact)
  {
    if Live(ev, DeleteRejectedContact) then
      var name := Some(ev[DeleteRejectedContact].s);
      var (d', ev') := if FindIndex(seen, name).Some? then DeleteSpec(d, ev, name, false) else (d, ev);
      (d', ev' - {DeleteRejectedContact})
    else (d, ev)
  }

  /** The two deletion steps agree unless the first record with the name was added in the pass. */
  lemma AsWrittenAgreesOnSeenRecords(seen: seq<Contact>, d: Directory, ev: Bus)
    requires DirectoryShaped(ev) && seen <= d.contacts
    requires Live(ev, DeleteRejectedContact) ==>
      var name := Some(ev[DeleteRejectedContact].s);
      FindIndex(seen, name).Some? || FindIndex(d.contacts, name).None?
    ensures DeleteRejectedAsWritten(seen, d, ev) == DeleteRejected(d, ev)
  {
    if Live(ev, DeleteRejectedContact) {
      var name := Some(ev[DeleteRejectedContact].s);
      if FindIndex(d.contacts, name).None? {
        DeleteAbsentIsNoop(d, ev, name, false);
      }
    }
  }

  /** A contact added and rejected in the same pass: as written, the rejection event is consumed
      and the record stays; the corrected step removes it. */
  lemma RejectionInSamePassIsLost()
    ensures var raw := RawContact(Some("bob"), None, None, None, Some(PENDING), None, false);
      var ev := map[AddContactToList := Record(raw), DeleteRejectedContact := Text("bob")];
      var d := Directory([], NoSelection, UserInfo(None));
      var (d2, ev2) := BeforeDelete(d, ev);
      && d2.contacts == [Normalize(raw)]
      && DeleteRejectedAsWritten(d.contacts, d2, ev2).0.contacts == [Normalize(raw)]
      && DeleteRejectedContact !in DeleteRejectedAsWritten(d.contacts, d2, ev2).1
      && DeleteRejected(d2, ev2).0.contacts == []
  {
  }

  /** The deletion touches the store only at `delete_rejected_contact` and `delete_contact`. */
  lemma DeleteRejectedFrame(d: Directory, ev: Bus, n: EventName)
    requires DirectoryShaped(ev)
    ensures Consumed(ev, DeleteRejected(d, ev).1, DeleteRejectedContact)
    ensures n != DeleteRejectedContact && n != DeleteContact ==> Kept(ev, DeleteRejected(d, ev).1, n)
  {
  }

  /** `update_contact_status`: resolve the matching pending records against `login`. */
  function StatusDir(d: Directory, ev: Bus, login: UserInfo): (r: Directory)
    requires DirectoryShaped(ev)
    ensures r.selected == d.selected && r.login == d.login
  {
    if Live(ev, UpdateContactStatus) then
      var p := ev[UpdateContactStatus];
      d.(contacts := UpdateStatus(d.contacts, p.request, p.newStatus, login.nickname))
    else d
  }

  /** `show_user_info`: adopt the login record; the event stays in the store. */
  function LoginDir(d: Directory, ev: Bus): Directory
    requires DirectoryShaped(ev)
  {
    if Live(ev, ShowUserInfo) then d.(login := ev[ShowUserInfo].info) else d
  }

  /** The directory and the store after the first two steps, which the deletion step reads. */
  function BeforeDelete(d: Directory, ev: Bus): (r: (Directory, Bus))
    requires DirectoryShaped(ev)
    ensures DirectoryShaped(r.1) && r.0.login == d.login
  {
    var ev1 := Ack(ev, AddContactToList);
    (ListDir(AddDir(d, ev, AddContactToList), ev1), Ack(ev1, ShowListContact))
  }

  /**
   * One poll pass of the directory. `setUserLogin` takes effect only on the next render, so the
   * status step sees the login held before the pass; the login is therefore adopted last. The
   * deletion step looks the name up in the list built so far (the corrected lookup; see
   * `DeleteRejectedAsWritten` for the one the source performs).
   */
  function PollSpec(d: Directory, ev: Bus): (r: (Directory, Bus))
    requires DirectoryShaped(ev)
    ensures DirectoryShaped(r.1)
  {
    var (d2, ev2) := BeforeDelete(d, ev);
    var (d3, ev3) := DeleteRejected(d2, ev2);
    var d4 := StatusDir(d3, ev3, d.login);
    var ev4 := Ack(ev3, UpdateContactStatus);
    var d5 := AddDir(d4, ev4, AddGroupToList);
    var ev5 := Ack(ev4, AddGroupToList);
    (LoginDir(d5, ev5), ev5)
  }

  /** No event the directory consumes, other than `name`, is live. */
  predicate OnlyLive(ev: Bus, name: EventName) {
    && (name == AddContactToList || !Live(ev, AddContactToList))
    && (name == ShowListContact || !Live(ev, ShowListContact))
    && (name == DeleteRejectedContact || !Live(ev, DeleteRejectedContact))
    && (name == UpdateContactStatus || !Live(ev, UpdateContactStatus))
    && (name == AddGroupToList || !Live(ev, AddGroupToList))
  }

  /** What one pass does to the store at one name: the five consumed names are consumed,
      every other name but `delete_contact` is kept. */
  lemma PassFrame(d: Directory, ev: Bus, n: EventName)
    requires DirectoryShaped(ev)
    ensures var ev' := PollSpec(d, ev).1;
      if n in {AddContactToList, ShowListContact, DeleteRejectedContact, UpdateContactStatus, AddGroupToList}
      then Consumed(ev, ev', n)
      else n != DeleteContact ==> Kept(ev, ev', n)
  {
    var ev1 := Ack(ev, AddContactToList);
    var (d2, ev2) := BeforeDelete(d, ev);
    var (d3, ev3) := DeleteRejected(d2, ev2);
    var ev4 := Ack(ev3, UpdateContactStatus);
    var ev5 := Ack(ev4, AddGroupToList);
    assert ev5 == PollSpec(d, ev).1;
    DeleteRejectedFrame(d2, ev2, n);
    assert n != AddContactToList ==> Kept(ev, ev1, n);
    assert n != ShowListContact ==> Kept(ev1, ev2, n);
    assert n != UpdateContactStatus ==> Kept(ev3, ev4, n);
    assert n != AddGroupToList ==> Kept(ev4, ev5, n);
  }

  /** After a pass every event the directory consumes is gone or was never live. */
  lemma PollConsumes(d: Directory, ev: Bus)
    requires DirectoryShaped(ev)
    ensures var ev' := PollSpec(d, ev).1;
      && Consumed(ev, ev', AddContactToList)
      && Consumed(ev, ev', ShowListContact)
      && Consumed(ev, ev', DeleteRejectedContact)
      && Consumed(ev, ev', UpdateContactStatus)
      && Consumed(ev, ev', AddGroupToList)
  {
    PassFrame(d, ev, AddContactToList);
    PassFrame(d, ev, ShowListContact);
    PassFrame(d, ev, DeleteRejectedContact);
    PassFrame(d, ev, UpdateContactStatus);
    PassFrame(d, ev, AddGroupToList);
  }

  /** A pass leaves `show_user_info` and `delete_group` untouched, and every name it does not
      consume other than `delete_contact`. */
  lemma PollKeepsOthers(d: Directory, ev: Bus)
    requires DirectoryShaped(ev)
    ensures var ev' := PollSpec(d, ev).1;
      && Kept(ev, ev', ShowUserInfo)
      && Kept(ev, ev', DeleteGroup)
      && forall n :: n != AddContactToList && n != ShowListContact && n != DeleteRejectedContact
                  && n != UpdateContactStatus && n != AddGroupToList && n != DeleteContact
                  ==> Kept(ev, ev', n)
  {
    PassFrame(d, ev, ShowUserInfo);
    PassFrame(d, ev, DeleteGroup);
    forall n | n != AddContactToList && n != ShowListContact && n != DeleteRejectedContact
            && n != UpdateContactStatus && n != AddGroupToList && n != DeleteContact
      ensures Kept(ev, PollSpec(d, ev).1, n)
    {
      PassFrame(d, ev, n);
    }
  }

  /** The pass adopts a live `show_user_info` record as the login and keeps it otherwise. */
  lemma PollAdoptsLogin(d: Directory, ev: Bus)
    requires DirectoryShaped(ev)
    ensures PollSpec(d, ev).0.login == if Live(ev, ShowUserInfo) then ev[ShowUserInfo].info else d.login
  {
    PassFrame(d, ev, ShowUserInfo);
  }

  /** A `show_list_contact` payload is appended in its own order. */
  lemma PollAppendsList(d: Directory, ev: Bus)
    requires DirectoryShaped(ev) && Live(ev, ShowListContact) && OnlyLive(ev, ShowListContact)
    ensures PollSpec(d, ev).0.contacts == d.contacts + NormalizeAll(ev[ShowListContact].raws)
    ensures PollSpec(d, ev).0.selected == d.selected
  {
  }

  /** `delete_rejected_contact` deletes as a contact, never as a group. */
  lemma PollDeletesRejectedAsContact(d: Directory, ev: Bus)
    requires DirectoryShaped(ev) && Live(ev, DeleteRejectedContact) && OnlyLive(ev, DeleteRejectedContact)
    ensures var name := Some(ev[DeleteRejectedContact].s);
      var (d', ev') := DeleteSpec(d, ev, name, false);
      && PollSpec(d, ev).0.contacts == d'.contacts
      && PollSpec(d, ev).0.selected == d'.selected
      && PollSpec(d, ev).1 == ev' - {DeleteRejectedContact}
  {
  }

  /** A status update in a pass is resolved against the login held before the pass, even when the
      same pass delivers a new `show_user_info`. */
  lemma PollUpdatesWithPreviousLogin(d: Directory, ev: Bus)
    requires DirectoryShaped(ev) && Live(ev, UpdateContactStatus) && OnlyLive(ev, UpdateContactStatus)
    ensures var p := ev[UpdateContactStatus];
      PollSpec(d, ev).0.contacts == UpdateStatus(d.contacts, p.request, p.newStatus, d.login.nickname)
  {
  }

  // ---------------------------------------------------------------------------------------------
  // the component

  class ContactList {
    var contacts: seq<Contact>
    var filtered: seq<Contact>
    var searchTerm: string
    var selected: Selection
    var userLogin: UserInfo

    constructor ()
      ensures contacts == [] && filtered == [] && searchTerm == ""
      ensures selected == NoSelection && userLogin == UserInfo(None)
    {
      contacts, filtered, searchTerm := [], [], "";
      selected, userLogin := NoSelection, UserInfo(None);
    }

    function State(): Directory
      reads this
    {
      Directory(contacts, selected, userLogin)
    }

    method AddContact(raw: RawContact)
      modifies this`contacts
      ensures contacts == WithContact(old(contacts), raw)
    {
      contacts := contacts + [Normalize(raw)];
    }

    /** `contactList.map(contact => addContact(contact))`. */
    method AddContacts(raws: seq<RawContact>)
      modifies this`contacts
      ensures contacts == old(contacts) + NormalizeAll(raws)
    {
      for i := 0 to |raws|
        invariant contacts == old(contacts) + NormalizeAll(raws[..i])
      {
        AddContact(raws[i]);
        assert NormalizeAll(raws[..i + 1]) == NormalizeAll(raws[..i]) + [Normalize(raws[i])];
      }
      assert raws[..|raws|] == raws;
    }

    method UpdateContactStatus(request: FriendRequest, newStatus: Option<string>)
      modifies this`contacts
      ensures contacts == UpdateStatus(old(contacts), request, newStatus, userLogin.nickname)
    {
      contacts := UpdateStatus(contacts, request, newStatus, userLogin.nickname);
    }

    method DeleteContact(store: EventStore, name: Option<string>, isGroup: bool)
      modifies this`contacts, this`selected, store
      ensures (State(), store.events) == DeleteSpec(old(State()), old(store.events), name, isGroup)
    {
      var index := FindIndex(contacts, name);
      if index.Some? {
        if isGroup {
          store.AddEvent(DeleteGroup, NamePayload(name));
        } else {
          store.AddEvent(EventName.DeleteContact, NamePayload(name));
        }
        var newContacts := contacts[..index.value] + contacts[index.value + 1..];
        if selected == Selected(name) {
          selected := NoSelection;
        }
        contacts := newContacts;
      }
    }

    /** Lines 17-21 and 48-52: consume an `add_contact_to_list` or `add_group_to_list` event. */
    method PollAdd(store: EventStore, name: EventName)
      requires DirectoryShaped(store.events) && (name == AddContactToList || name == AddGroupToList)
      modifies this`contacts, store
      ensures State() == AddDir(old(State()), old(store.events), name)
      ensures store.events == Ack(old(store.events), name)
    {
      var contact := store.GetEventData(name);
      if contact.Some? && Truthy(contact.value) {
        AddContact(contact.value.raw);
        store.RemoveEvent(name);
      }
    }

    /** Lines 23-29: consume a `show_list_contact` event. */
    method PollList(store: EventStore)
      requires DirectoryShaped(store.events)
      modifies this`contacts, store
      ensures State() == ListDir(old(State()), old(store.events))
      ensures store.events == Ack(old(store.events), ShowListContact)
    {
      var contactList := store.GetEventData(ShowListContact);
      if contactList.Some? && Truthy(contactList.value) {
        AddContacts(contactList.value.raws);
        store.RemoveEvent(ShowListContact);
      }
    }

    /** Lines 31-35: consume a `delete_rejected_contact` event. */
    method PollDeleteRejected(store: EventStore)
      requires DirectoryShaped(store.events)
      modifies this`contacts, this`selected, store
      ensures (State(), store.events) == DeleteRejected(old(State()), old(store.events))
    {
      var contactToDelete := store.GetEventData(DeleteRejectedContact);
      if contactToDelete.Some? && Truthy(contactToDelete.value) {
        DeleteContact(store, Some(contactToDelete.value.s), false);
        store.RemoveEvent(DeleteRejectedContact);
      }
    }

    /** Lines 42-46: consume an `update_contact_status` event. */
    method PollStatus(store: EventStore)
      requires DirectoryShaped(store.events)
      modifies this`contacts, store
      ensures State() == StatusDir(old(State()), old(store.events), userLogin)
      ensures store.events == Ack(old(store.events), EventName.UpdateContactStatus)
    {
      var updateRequest := store.GetEventData(EventName.UpdateContactStatus);
      if updateRequest.Some? && Truthy(updateRequest.value) {
        UpdateContactStatus(updateRequest.value.request, updateRequest.value.newStatus);
        store.RemoveEvent(EventName.UpdateContactStatus);
      }
    }

    /** The poll pass over the store. `show_user_info` is read but not removed; the login it
        carries is stored after the other steps, as the setter is seen only by the next render. */
    method Poll(store: EventStore)
      requires DirectoryShaped(store.events)
      modifies this`contacts, this`selected, this`userLogin, store
      ensures (State(), store.events) == PollSpec(old(State()), old(store.events))
    {
      PollAdd(store, AddContactToList);
      PollList(store);
      PollDeleteRejected(store);
      PollStatus(store);
      PollAdd(store, AddGroupToList);
      var userInfo := store.GetEventData(ShowUserInfo);
      if userInfo.Some? && Truthy(userInfo.value) {
        userLogin := userInfo.value.info;
      }
    }

    /** The search effect: recompute the filtered view; `ok` is false when the source's filter
        would throw on a record without a name, and the view is then left as it was. */
    method RefreshFilter() returns (ok: bool)
      modifies this`filtered
      ensures ok <==> AllNamed(contacts)
      ensures filtered == if ok then SearchView(contacts, searchTerm).value else old(filtered)
    {
      var view := SearchView(contacts, searchTerm);
      ok := view.Some?;
      if ok {
        filtered := view.value;
      }
    }

    /** `handleSearch`. */
    method HandleSearch(term: string)
      modifies this`searchTerm
      ensures searchTerm == term
    {
      searchTerm := term;
    }

    /** `clearSearch`: after it the view shows every record (see `SearchViewSpec`). */
    method ClearSearch()
      modifies this`searchTerm
      ensures searchTerm == ""
    {
      searchTerm := "";
    }

    /** A click on the tile of `c`: `handleChat` with `onSelect` bound to selecting `c`'s name. */
    method ClickTile(store: EventStore, c: Contact)
      modifies this`selected, store
      ensures selected == Selected(c.name)
      ensures store.events == if old(selected) == Selected(c.name) then old(store.events)
                              else old(store.events)[SelectedChat := ChatSelection(c.name, c.status)]
    {
      var selectCalled := ContactTile.HandleChat(store, c.name, c.status, selected == Selected(c.name));
      if selectCalled {
        selected := Selected(c.name);
      }
    }

    /** `handleMenuClick(action)` on the context menu opened over `target`. */
    method HandleMenuClick(store: EventStore, action: string, target: Contact)
      modifies this`contacts, this`selected, store
      ensures (State(), store.events) == if action == "delete" then DeleteSpec(old(State()), old(store.events), target.name, target.isGroup)
                                         else (old(State()), old(store.events))
    {
      if action == "delete" {
        DeleteContact(store, target.name, target.isGroup);
      }
    }
  }
}
