/**
 * How the components cooperate through the store: a request accepted or rejected in the
 * resolver reaches the directory on its next poll pass.
 */
module RequestFlow {
  import opened Wrappers
  import opened Events
  import opened ContactDirectory
  import opened FriendRequests

  /**
   * The directory pass that follows `handleStatus` resolves the request against the login it
   * held: the records present before the pass are exactly the update of the old records,
   * the update event is consumed, and the notice for the transport stays in the store.
   */
  lemma ResolutionReachesDirectory(d: Directory, ev: Bus, request: FriendRequest, s: string)
    requires DirectoryShaped(ev) && !Live(ev, DeleteRejectedContact)
    ensures DirectoryShaped(Resolution(ev, request, s))
    ensures var (d', ev') := PollSpec(d, Resolution(ev, request, s));
      && |d.contacts| <= |d'.contacts|
      && d'.contacts[..|d.contacts|] == UpdateStatus(d.contacts, request, Some(s), d.login.nickname)
      && UpdateContactStatus !in ev'
      && UpdateStatusRequest in ev'
      && ev'[UpdateStatusRequest] == StatusNotice(s, request.toUser, request.fromUser)
  {
    var ev0 := Resolution(ev, request, s);
    assert DirectoryShaped(ev0);
    var ev1 := Ack(ev0, AddContactToList);
    var (d2, ev2) := BeforeDelete(d, ev0);
    assert d2.contacts[..|d.contacts|] == d.contacts;
    assert Kept(ev0, ev2, DeleteRejectedContact);
    var (d3, ev3) := DeleteRejected(d2, ev2);
    assert (d3, ev3) == (d2, ev2);
    assert Live(ev3, UpdateContactStatus);
    var d4 := StatusDir(d3, ev3, d.login);
    assert d4.contacts[..|d.contacts|] == UpdateStatus(d.contacts, request, Some(s), d.login.nickname);
    var ev4 := Ack(ev3, UpdateContactStatus);
    var d5 := AddDir(d4, ev4, AddGroupToList);
    assert d5.contacts[..|d.contacts|] == d4.contacts[..|d.contacts|];
    assert PollSpec(d, ev0).0.contacts == d5.contacts;
    PassFrame(d, ev0, UpdateContactStatus);
    PassFrame(d, ev0, UpdateStatusRequest);
  }

  /** Accepting or rejecting a pending request from a contact the logged-in user can see gives
      that contact's record the chosen status. */
  lemma PendingContactResolved(d: Directory, ev: Bus, request: FriendRequest, s: string, i: nat)
    requires DirectoryShaped(ev) && !Live(ev, DeleteRejectedContact)
    requires i < |d.contacts| && d.contacts[i].status == Some(PENDING)
    requires Involved(d.contacts[i], request, d.login.nickname)
    ensures DirectoryShaped(Resolution(ev, request, s))
    ensures var d' := PollSpec(d, Resolution(ev, request, s)).0;
      i < |d'.contacts| && d'.contacts[i] == d.contacts[i].(status := Some(s))
  {
    ResolutionReachesDirectory(d, ev, request, s);
    var d' := PollSpec(d, Resolution(ev, request, s)).0;
    assert d'.contacts[i] == d'.contacts[..|d.contacts|][i];
  }

  /**
   * The whole exchange on fresh components: the receiver's login and the sender's pending record
   * arrive, the request is captured, the receiver answers, and the next directory pass shows the
   * sender's record with the answer.
   */
  method AnswerRequest(sender: string, receiver: string, accept: bool) returns (status: Option<string>)
    requires sender != ""
    ensures status == Some(if accept then ACCEPTED else REJECTED)
  {
    var store := new EventStore();
    var list := new ContactList();
    var inbox := new RequestReceived();
    var raw := RawContact(Some(sender), None, None, None, Some(PENDING), None, false);
    store.AddEvent(ShowUserInfo, User(UserInfo(Some(receiver))));
    store.AddEvent(AddContactToList, Record(raw));
    ghost var d0 := list.State();
    ghost var ev0 := store.events;
    list.Poll(store);
    PollAdoptsLogin(d0, ev0);
    assert list.contacts == [Normalize(raw)];
    var request := FriendRequest(Some(sender), Some(receiver));
    store.AddEvent(OpenChatRequestReceived, Request(request));
    inbox.Poll(store);
    var answer := if accept then ACCEPTED else REJECTED;
    ghost var d1 := list.State();
    ghost var ev1 := store.events;
    inbox.HandleStatus(store, answer);
    PendingContactResolved(d1, ev1, request, answer, 0);
    list.Poll(store);
    status := list.contacts[0].status;
  }
}
