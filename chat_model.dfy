/**
 * Conversations and their messages (server/models/Message.js; the
 * conversation document is the one the chat controller reads and writes).
 */
module ChatModel {
  import opened Common

  datatype MessageType = Text | Audio | System

  datatype Message = Message(
    conversation: Id,
    sender: Id,
    content: Option<string>,
    readBy: seq<Id>,
    messageType: MessageType,
    audioData: Option<string>,
    audioDuration: Option<int>,
    createdAt: int)

  /** `unreadCount` maps a participant to the number of messages they have not read. */
  datatype Conversation = Conversation(
    participants: seq<Id>,
    lastMessage: Option<Id>,
    lastMessageAt: Option<int>,
    unreadCount: map<Id, nat>)

  /** `counts.get(user) || 0`: a user with no entry counts 0. */
  function CountOf(counts: map<Id, nat>, user: Id): (n: nat)
    ensures user !in counts ==> n == 0
    ensures user in counts ==> n == counts[user]
  {
    if user in counts then counts[user] else 0
  }

  /** A user's unread count in a conversation; a user with no entry has nothing unread. */
  function UnreadOf(c: Conversation, user: Id): (n: nat)
    ensures user !in c.unreadCount ==> n == 0
    ensures user in c.unreadCount ==> n == c.unreadCount[user]
  {
    CountOf(c.unreadCount, user)
  }
}
