/**
 Properties of the moderation rule, one lemma per promise of the filter and
 the handler, and the independence of messages in a stream.
 */
module Properties {
  import opened PyValues
  import opened Telegram
  import opened Cleaner
  import opened Dispatch

  /** A private chat is never cleaned, whatever the service attributes hold. */
  lemma PrivateNeverFlagged(m: Message)
    requires m.chat.chatType == PrivateChat
    ensures !DeleteFilter(m)
  {}

  lemma NewParticipantFlagged(m: Message)
    requires m.chat.chatType != PrivateChat && IsSet(m.newChatParticipant)
    ensures DeleteFilter(m)
  {}

  lemma LeftParticipantFlagged(m: Message)
    requires m.chat.chatType != PrivateChat && IsSet(m.leftChatParticipant)
    ensures DeleteFilter(m)
  {}

  lemma PinnedFlagged(m: Message)
    requires m.chat.chatType != PrivateChat && IsSet(m.pinnedMessage)
    ensures DeleteFilter(m)
  {}

  /** An ordinary message (no service attribute set) is left alone, and a
      missing attribute counts the same as a present but falsy one. */
  lemma OrdinaryMessageKept(m: Message)
    requires !IsSet(m.newChatParticipant) && !IsSet(m.leftChatParticipant) && !IsSet(m.pinnedMessage)
    ensures !DeleteFilter(m)
  {}

  /** A chat outside the allow-list is never touched, even for a message the
      filter would flag. */
  lemma DisallowedChatIgnored(allowList: set<int>, m: Message, outcome: DeleteOutcome)
    requires m.chat.id !in allowList
    ensures Decide(allowList, m) == NoAction
    ensures Handle(allowList, m, outcome) == Returned(Ignored)
  {}

  lemma UnflaggedMessageIgnored(allowList: set<int>, m: Message, outcome: DeleteOutcome)
    requires !DeleteFilter(m)
    ensures Decide(allowList, m) == NoAction
    ensures Handle(allowList, m, outcome) == Returned(Ignored)
  {}

  /** A refused delete never escapes the handler: it returns normally and the
      message stays in place. */
  lemma DeleteFailureSwallowed(allowList: set<int>, m: Message, reason: string)
    ensures Handle(allowList, m, Err(reason)).Returned?
    ensures !Handle(allowList, m, Err(reason)).effect.Deleted?
  {}

  /** Handling a stream is handling its parts one after the other: the
      requests for `a + b` are those for `a` followed by those for `b`. */
  lemma {:induction false} RequestsAppend(allowList: set<int>, a: seq<Message>, b: seq<Message>)
    ensures Requests(allowList, a + b) == Requests(allowList, a) + Requests(allowList, b)
    decreases |b|
  {
    if |b| == 0 {
      assert a + b == a;
    } else {
      var b' := b[..|b| - 1];
      var x := b[|b| - 1];
      assert (a + b)[..|a + b| - 1] == a + b';
      assert (a + b)[|a + b| - 1] == x;
      RequestsAppend(allowList, a, b');
    }
  }

  /** One message yields one delete request when it qualifies and none otherwise. */
  lemma RequestsSingle(allowList: set<int>, m: Message)
    ensures Requests(allowList, [m]) ==
              if Qualifies(allowList, m) then [Delete(m.chat, m.messageId)] else []
  {
    assert [m][..0] == [];
  }

  /** Concrete messages: a pin in a private chat is kept; a join and a pin in
      a group and a departure in a supergroup are flagged; a group message
      whose three attributes are all None is kept; a join in chat 200 gets no
      delete when only chat 100 is allowed. */
  lemma Scenarios()
    ensures !DeleteFilter(Message(Chat(1, "private"), 1, Absent, Absent, Present(PyObject)))
    ensures DeleteFilter(Message(Chat(1, "group"), 1, Present(PyObject), Absent, Absent))
    ensures DeleteFilter(Message(Chat(1, "supergroup"), 1, Absent, Present(PyObject), Absent))
    ensures DeleteFilter(Message(Chat(1, "group"), 1, Absent, Absent, Present(PyObject)))
    ensures !DeleteFilter(Message(Chat(1, "group"), 1, Present(PyNone), Present(PyNone), Present(PyNone)))
    ensures Decide({100}, Message(Chat(200, "group"), 1, Present(PyObject), Absent, Absent)) == NoAction
  {}
}
