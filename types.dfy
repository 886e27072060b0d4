/**
 * The records the chat client exchanges with its server (src/types/Types.ts),
 * restricted to the fields the modelled components read or write.
 *
 * Timestamps (`created_at`) are integers (milliseconds) rather than date
 * strings; optional fields are `Option`s.
 */
module Types {
  import opened Wrappers

  /** One emoji's entry in a message's reaction map: how many, and who (user ids as strings). */
  datatype ReactionData = ReactionData(count: int, users: seq<string>)

  /**
   * A message's reactions, keyed by emoji. This is the shape the reaction
   * component works on (src/components/MessageReactions.tsx:7-12).
   */
  type Reactions = map<string, ReactionData>

  datatype Message = Message(
    id: int,
    channelId: int,
    userId: int,
    content: string,
    createdAt: int,
    displayName: string,
    threadId: Option<int>,
    threadParentMessageId: Option<int>,
    isThreadParent: Option<bool>,
    reactions: Reactions,
    isAiGenerated: Option<bool>)

  /** The decoded body of an authentication token. `exp` is in seconds and may be absent. */
  datatype JWTPayload = JWTPayload(userId: int, role: string, iat: int, exp: Option<int>)

  datatype PresenceStatus = Online | Idle | Offline

  /** Per-context typing flags of a user; an absent key reads as "not typing". */
  datatype TypingFlags = TypingFlags(channels: map<int, bool>, threads: map<int, bool>)

  datatype User = User(
    id: int,
    displayName: string,
    email: string,
    presenceStatus: PresenceStatus,
    customStatus: Option<string>,
    isTyping: Option<TypingFlags>)

  /** A thread record; `id == PendingThreadId` marks a thread the server has not created yet. */
  datatype Thread = Thread(
    id: int,
    channelId: int,
    parentMessageId: int,
    createdAt: int,
    lastReplyAt: int,
    threadStarterContent: string,
    threadStarterName: string,
    threadStarterId: int,
    replyCount: int)

  /** The id a thread panel carries before the server has assigned one. */
  const PendingThreadId: int := -1

  /** The name the UI shows for a user: the display name, or the email when that is empty. */
  function ShownName(u: User): string {
    if u.displayName != [] then u.displayName else u.email
  }
}
