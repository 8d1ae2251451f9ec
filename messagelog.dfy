/**
 * The message log (`Chat`): a snapshot event replaces the log, a single-message event appends to
 * it unless the message has no visible text, and the current user's record is read and kept.
 */
module MessageLog {
  import opened Wrappers
  import opened Events
  import opened Text

  /** The guard of `addMessage`: a message is given, its text is present and non-empty
      (`!message.text` treats "" as missing), and the text does not trim to "". */
  predicate Acceptable(m: Option<Message>)
    ensures Acceptable(m) ==> m.Some? && m.value.text.Some? && !Blank(m.value.text.value)
  {
    && m.Some? && m.value.text.Some? && m.value.text.value != ""
    && (TrimEmptyIffBlank(m.value.text.value); Trim(m.value.text.value) != "")
  }

  /** A message is accepted exactly when it has a text with at least one non-space character. */
  lemma AcceptableIffVisibleText(m: Option<Message>)
    ensures Acceptable(m) <==> m.Some? && m.value.text.Some?
                               && exists i :: 0 <= i < |m.value.text.value| && !IsSpace(m.value.text.value[i])
  {
    if m.Some? && m.value.text.Some? {
      TrimEmptyIffBlank(m.value.text.value);
    }
  }

  /** `addMessage`: the log grows by the message at its end, or stays as it was. */
  function WithMessage(log: seq<Message>, m: Option<Message>): (r: seq<Message>)
    ensures Acceptable(m) ==> |r| == |log| + 1 && r[..|log|] == log && r[|log|] == m.value
    ensures !Acceptable(m) ==> r == log
  {
    if Acceptable(m) then log + [m.value] else log
  }

  /** The component state a poll pass folds events into. */
  datatype ChatState = ChatState(messages: seq<Message>, userData: UserInfo)

  /** The payloads of the names the log reads have the shapes it dereferences. */
  predicate ChatShaped(ev: Bus) {
    ShapedAt(ev, ShowListMessages) && ShapedAt(ev, ShowMessageToSend) && ShapedAt(ev, ShowUserInfo)
  }

  /** One poll pass: snapshot, then single message, then the user record (never removed). */
  function ChatPass(c: ChatState, ev: Bus): (r: (ChatState, Bus))
    requires ChatShaped(ev)
    ensures ChatShaped(r.1)
    ensures |c.messages| <= |r.0.messages| || Live(ev, ShowListMessages)
  {
    var (log1, ev1) :=
      if Live(ev, ShowListMessages) then (ev[ShowListMessages].messages, ev - {ShowListMessages})
      else (c.messages, ev);
    var (log2, ev2) :=
      if Live(ev1, ShowMessageToSend) then (WithMessage(log1, Some(ev1[ShowMessageToSend].message)), ev1 - {ShowMessageToSend})
      else (log1, ev1);
    var user := if Live(ev2, ShowUserInfo) then ev2[ShowUserInfo].info else c.userData;
    (ChatState(log2, user), ev2)
  }

  /** The log after a pass: the snapshot if one was live (else the old log), followed by the
      single message when one was live and acceptable. */
  lemma ChatPassLog(c: ChatState, ev: Bus)
    requires ChatShaped(ev)
    ensures var base := if Live(ev, ShowListMessages) then ev[ShowListMessages].messages else c.messages;
      ChatPass(c, ev).0.messages ==
        if Live(ev, ShowMessageToSend) && Acceptable(Some(ev[ShowMessageToSend].message))
        then base + [ev[ShowMessageToSend].message] else base
  {
  }

  /** Snapshot and single message are removed when live, even when the message is rejected;
      the user record stays in the store and is adopted; every other name is untouched. */
  lemma ChatPassEvents(c: ChatState, ev: Bus)
    requires ChatShaped(ev)
    ensures var (c', ev') := ChatPass(c, ev);
      && Consumed(ev, ev', ShowListMessages)
      && Consumed(ev, ev', ShowMessageToSend)
      && Kept(ev, ev', ShowUserInfo)
      && c'.userData == (if Live(ev, ShowUserInfo) then ev[ShowUserInfo].info else c.userData)
      && forall n :: n != ShowListMessages && n != ShowMessageToSend ==> Kept(ev, ev', n)
  {
  }

  /** A message whose text is white space only is rejected. */
  lemma {:induction false} BlankTextRejected(m: Message)
    requires m.text.Some? && Blank(m.text.value)
    ensures !Acceptable(Some(m))
  {
    TrimEmptyIffBlank(m.text.value);
  }

  /** A pass that sees only a snapshot replaces the log with it, whatever the log held. */
  lemma SnapshotReplaces(c: ChatState, snapshot: seq<Message>)
    ensures ChatPass(c, map[ShowListMessages := MessageList(snapshot)]).0.messages == snapshot
  {
    ChatPassLog(c, map[ShowListMessages := MessageList(snapshot)]);
  }

  /** A pass that sees only a single message appends it when acceptable. */
  lemma SendAppends(c: ChatState, m: Message)
    ensures ChatPass(c, map[ShowMessageToSend := SingleMessage(m)]).0.messages == WithMessage(c.messages, Some(m))
  {
    ChatPassLog(c, map[ShowMessageToSend := SingleMessage(m)]);
  }

  /** Loading `[m1, m2]` and then sending an acceptable `m3` gives `[m1, m2, m3]`. */
  lemma SnapshotThenSend(m1: Message, m2: Message, m3: Message, user: UserInfo)
    requires Acceptable(Some(m3))
    ensures var loaded := ChatPass(ChatState([], user), map[ShowListMessages := MessageList([m1, m2])]).0;
      ChatPass(loaded, map[ShowMessageToSend := SingleMessage(m3)]).0.messages == [m1, m2, m3]
  {
    SnapshotReplaces(ChatState([], user), [m1, m2]);
    var loaded := ChatPass(ChatState([], user), map[ShowListMessages := MessageList([m1, m2])]).0;
    SendAppends(loaded, m3);
  }

  /** Sending a message whose text is two spaces leaves the log as it was. */
  lemma SendBlankKeepsLog(c: ChatState, blank: Message)
    requires blank.text == Some("  ")
    ensures ChatPass(c, map[ShowMessageToSend := SingleMessage(blank)]).0.messages == c.messages
  {
    BlankTextRejected(blank);
    SendAppends(c, blank);
  }

  class Chat {
    var messages: seq<Message>
    var userData: UserInfo

    constructor ()
      ensures messages == [] && userData == UserInfo(None)
    {
      messages, userData := [], UserInfo(None);
    }

    function State(): ChatState
      reads this
    {
      ChatState(messages, userData)
    }

    method AddMessage(m: Option<Message>)
      modifies this`messages
      ensures messages == WithMessage(old(messages), m)
    {
      if !Acceptable(m) {
        return;
      }
      messages := messages + [m.value];
    }

    /** The poll pass over the store. */
    method Poll(store: EventStore)
      requires ChatShaped(store.events)
      modifies this`messages, this`userData, store
      ensures (State(), store.events) == ChatPass(old(State()), old(store.events))
    {
      var msgs := store.GetEventData(ShowListMessages);
      if msgs.Some? && Truthy(msgs.value) {
        messages := msgs.value.messages;
        store.RemoveEvent(ShowListMessages);
      }
      var msg := store.GetEventData(ShowMessageToSend);
      if msg.Some? && Truthy(msg.value) {
        AddMessage(Some(msg.value.message));
        store.RemoveEvent(ShowMessageToSend);
      }
      var user := store.GetEventData(ShowUserInfo);
      if user.Some? && Truthy(user.value) {
        userData := user.value.info;
      }
    }
  }
}
