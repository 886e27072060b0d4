/**
 * The outbound WebSocket frames the modelled components send. Each frame is a
 * JSON object whose `type` names its kind and which carries the stored token
 * (`null` when none is stored).
 */
module Frames {
  import opened Wrappers

  datatype Frame =
    | CreateThread(channelId: string, messageId: int, content: string, token: Option<string>)
    | ThreadReply(threadId: int, channelId: string, content: string, token: Option<string>)
    | TypingStart(threadId: int, token: Option<string>)
    | TypingStop(threadId: int, token: Option<string>)
    | AddReaction(messageId: int, emoji: string, token: Option<string>)
    | RemoveReaction(messageId: int, emoji: string, token: Option<string>)
  {
    /** The frame's `type` field on the wire. */
    function Type(): string {
      match this
      case CreateThread(_, _, _, _) => "create_thread"
      case ThreadReply(_, _, _, _) => "thread_message"
      case TypingStart(_, _) => "typing_start"
      case TypingStop(_, _) => "typing_stop"
      case AddReaction(_, _, _) => "add_reaction"
      case RemoveReaction(_, _, _) => "remove_reaction"
    }
  }
}
