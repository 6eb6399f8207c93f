/**
 The parts of a chat-platform message that the cleaner reads.
 */
module Telegram {
  import opened PyValues

  /** The chat type string of a one-on-one chat. */
  const PrivateChat: string := "private"

  /** A chat: its numeric identifier and its type string ("private",
      "group", "supergroup", "channel", ...). */
  datatype Chat = Chat(id: int, chatType: string)

  /** A message as delivered in one update. The three service attributes are
      optional: each may be missing from the object or present with any value. */
  datatype Message = Message(
    chat: Chat,
    messageId: int,
    newChatParticipant: Attr,
    leftChatParticipant: Attr,
    pinnedMessage: Attr
  )
}
