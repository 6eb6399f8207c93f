/**
 The moderation rule of the cleaner bot: which messages are service
 notifications to remove, the allow-list gate in front of that rule, and the
 best-effort delete that follows it.
 */
module Cleaner {
  import opened PyValues
  import opened Telegram

  /** The classifier's view of a message: the chat type and one flag per
      service attribute, true exactly when that attribute is set. */
  datatype Flags = Flags(chatType: string, newParticipant: bool, leftParticipant: bool, pinned: bool)

  function FlagsOf(m: Message): Flags {
    Flags(m.chat.chatType, IsSet(m.newChatParticipant), IsSet(m.leftChatParticipant), IsSet(m.pinnedMessage))
  }

  /** Reference rule, stated in closed form: a message is a service
      notification to remove when it is outside a private chat and announces
      a join, a departure or a pin. */
  predicate ServiceNotice(f: Flags) {
    f.chatType != PrivateChat && (f.newParticipant || f.leftParticipant || f.pinned)
  }

  /** An allowed service notification: a message the handler's gate lets through. */
  predicate Qualifies(allowList: set<int>, m: Message) {
    m.chat.id in allowList && ServiceNotice(FlagsOf(m))
  }

  /** The message filter: checks, in order, the private-chat short-circuit
      and then each service attribute (present and truthy), first match wins. */
  function DeleteFilter(m: Message): (r: bool)
    ensures r <==> ServiceNotice(FlagsOf(m))
  {
    if m.chat.chatType == PrivateChat then false
    else if m.newChatParticipant.Present? && Truthy(m.newChatParticipant.value) then true
    else if m.leftChatParticipant.Present? && Truthy(m.leftChatParticipant.value) then true
    else if m.pinnedMessage.Present? && Truthy(m.pinnedMessage.value) then true
    else false
  }

  /** What the handler decides to do with one message. The delete request
      names the message's chat object and its message id. */
  datatype Action = NoAction | Delete(chat: Chat, messageId: int)

  /** The gate of the handler: the allow-list first, then the filter. */
  function Decide(allowList: set<int>, m: Message): (a: Action)
    ensures a.Delete? <==> Qualifies(allowList, m)
    ensures a.Delete? ==> a.chat == m.chat && a.messageId == m.messageId
  {
    if m.chat.id !in allowList then NoAction
    else if !DeleteFilter(m) then NoAction
    else Delete(m.chat, m.messageId)
  }

  /** What the platform answers to one delete request. */
  datatype DeleteOutcome = Ok | Err(reason: string)

  /** What became of the message on the platform. */
  datatype Effect =
    | Ignored                                  // no delete was requested
    | Deleted(chat: Chat, messageId: int)      // the delete succeeded
    | Failed(chat: Chat, messageId: int)       // the delete was requested and refused

  /** How a Python call finished: a normal return, or an exception. */
  datatype Completion = Returned(effect: Effect) | Raised(error: string)

  /** Stand-in for the platform's delete call: it returns when the platform
      accepts the request and raises when it refuses it. */
  function CallDelete(chat: Chat, messageId: int, outcome: DeleteOutcome): Completion {
    match outcome
    case Ok => Returned(Deleted(chat, messageId))
    case Err(reason) => Raised(reason)
  }

  /** The best-effort step: carry out an action, catching every exception
      the delete call raises. Whatever the platform answers, the handler
      returns normally. */
  function Complete(a: Action, outcome: DeleteOutcome): (r: Completion)
    ensures r.Returned?
    ensures r.effect.Deleted? <==> a.Delete? && outcome.Ok?
    ensures r.effect.Failed? <==> a.Delete? && outcome.Err?
    ensures a.Delete? ==> r.effect.chat == a.chat && r.effect.messageId == a.messageId
  {
    match a
    case NoAction => Returned(Ignored)
    case Delete(chat, messageId) =>
      match CallDelete(chat, messageId, outcome)
      case Returned(effect) => Returned(effect)
      case Raised(_) => Returned(Failed(chat, messageId))
  }

  /** The whole handler for one message, given what the platform would
      answer to a delete of it. */
  function Handle(allowList: set<int>, m: Message, outcome: DeleteOutcome): (r: Completion)
    ensures r.Returned?
    ensures r.effect == Ignored <==> !Qualifies(allowList, m)
    ensures r.effect.Deleted? <==> Qualifies(allowList, m) && outcome.Ok?
    ensures r.effect != Ignored ==> r.effect.chat == m.chat && r.effect.messageId == m.messageId
  {
    Complete(Decide(allowList, m), outcome)
  }
}
