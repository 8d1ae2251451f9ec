/**
 * The friend-request resolver (`RequestReceived`): it captures one request from the store and,
 * when the user accepts or rejects it, emits a status notice for the transport and a status
 * update for the contact directory.
 */
module FriendRequests {
  import opened Wrappers
  import opened Events

  /** The store after `handleStatus(newStatus)` on `request`. */
  function Resolution(ev: Bus, request: FriendRequest, newStatus: string): (r: Bus)
    ensures UpdateStatusRequest in r && UpdateContactStatus in r
    ensures r[UpdateStatusRequest] == StatusNotice(newStatus, request.toUser, request.fromUser)
    ensures r[UpdateContactStatus] == StatusUpdate(request, Some(newStatus))
    ensures forall n :: n != UpdateStatusRequest && n != UpdateContactStatus ==> Kept(ev, r, n)
  {
    ev[UpdateStatusRequest := StatusNotice(newStatus, request.toUser, request.fromUser)]
      [UpdateContactStatus := StatusUpdate(request, Some(newStatus))]
  }

  class RequestReceived {
    var requestData: Option<FriendRequest>

    constructor ()
      ensures requestData == None
    {
      requestData := None;
    }

    /** The poll pass: capture a live request and remove its event; otherwise keep the one held. */
    method Poll(store: EventStore)
      requires ShapedAt(store.events, OpenChatRequestReceived)
      modifies this`requestData, store
      ensures Live(old(store.events), OpenChatRequestReceived) ==>
        && requestData == Some(old(store.events)[OpenChatRequestReceived].request)
        && store.events == old(store.events) - {OpenChatRequestReceived}
      ensures !Live(old(store.events), OpenChatRequestReceived) ==>
        requestData == old(requestData) && store.events == old(store.events)
    {
      var request := store.GetEventData(OpenChatRequestReceived);
      if request.Some? && Truthy(request.value) {
        requestData := Some(request.value.request);
        store.RemoveEvent(OpenChatRequestReceived);
      }
    }

    /** `handleStatus`: dereferences the held request, so one must have been captured. */
    method HandleStatus(store: EventStore, newStatus: string)
      requires requestData.Some?
      modifies store
      ensures store.events == Resolution(old(store.events), requestData.value, newStatus)
      ensures requestData == old(requestData)
    {
      store.AddEvent(UpdateStatusRequest,
        StatusNotice(newStatus, requestData.value.toUser, requestData.value.fromUser));
      store.AddEvent(UpdateContactStatus, StatusUpdate(requestData.value, Some(newStatus)));
    }

    /** The "accept" button. */
    method Accept(store: EventStore)
      requires requestData.Some?
      modifies store
      ensures store.events == Resolution(old(store.events), requestData.value, ACCEPTED)
    {
      HandleStatus(store, ACCEPTED);
    }

    /** The "reject" button. */
    method Reject(store: EventStore)
      requires requestData.Some?
      modifies store
      ensures store.events == Resolution(old(store.events), requestData.value, REJECTED)
    {
      HandleStatus(store, REJECTED);
    }
  }
}
