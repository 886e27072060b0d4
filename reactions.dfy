/**
 * The reaction chips under a message (src/components/MessageReactions.tsx):
 * clicking an emoji sends `add_reaction` or `remove_reaction` depending on
 * whether the current user already reacted with it, the "+" button opens and
 * closes the emoji picker, and each chip shows a count with a pluralised title.
 *
 * The current user id is the decoded token's `userId` rendered as a string,
 * since reaction `users` lists hold ids as strings.
 */
module MessageReactions {
  import opened Wrappers
  import opened Types
  import opened Text
  import opened Frames

  /**
   * The picker's emojis (MessageReactions.tsx:16): thumbs up, red heart, tears
   * of joy, party popper, thinking face, eyes, rocket, clapping hands. The
   * first, second, fourth and last are readings of damaged text.
   */
  const CommonEmojis: seq<string> :=
    ["\U{1F44D}", "\U{2764}\U{FE0F}", "\U{1F602}", "\U{1F389}", "\U{1F914}", "\U{1F440}", "\U{1F680}", "\U{1F44F}"]

  /** `reactions[emoji]?.users.includes(userId)` (MessageReactions.tsx:25). */
  predicate HasReacted(reactions: Reactions, emoji: string, userId: string) {
    emoji in reactions && userId in reactions[emoji].users
  }

  /**
   * The frame a click on `emoji` sends (MessageReactions.tsx:25-33): a
   * removal exactly when the user is already among that emoji's reactors,
   * an addition otherwise (also when nobody reacted with it yet).
   */
  function ReactionFrame(reactions: Reactions, emoji: string, userId: string,
                         messageId: int, token: Option<string>): (f: Frame)
    ensures f.RemoveReaction? <==> emoji in reactions && userId in reactions[emoji].users
    ensures f.AddReaction? <==> !(emoji in reactions && userId in reactions[emoji].users)
    ensures emoji !in reactions ==> f.AddReaction?
    ensures (f.AddReaction? || f.RemoveReaction?) && f.messageId == messageId && f.emoji == emoji && f.token == token
  {
    if HasReacted(reactions, emoji, userId) then RemoveReaction(messageId, emoji, token)
    else AddReaction(messageId, emoji, token)
  }

  /**
   * A click toggles the user's own reaction: once the map shows the user
   * among an emoji's reactors the next click removes it, and once it no
   * longer does the next click adds it back; other users' reactions do not
   * enter the decision.
   */
  lemma ClickTogglesOwnReaction(reactions: Reactions, emoji: string, userId: string, other: string,
                                 messageId: int, token: Option<string>, data: ReactionData)
    requires other != userId
    ensures ReactionFrame(reactions[emoji := data.(users := data.users + [userId])], emoji, userId, messageId, token).RemoveReaction?
    ensures userId !in data.users ==>
              ReactionFrame(reactions[emoji := data], emoji, userId, messageId, token).AddReaction?
    ensures userId !in data.users ==>
              ReactionFrame(reactions[emoji := data.(users := data.users + [other])], emoji, userId, messageId, token).AddReaction?
  {
    assert userId in (data.users + [userId]);
    if userId !in data.users {
      assert userId !in data.users + [other];
    }
  }

  /** A chip's hover title (MessageReactions.tsx:49): "1 reaction", otherwise "<count> reactions". */
  function ChipTitle(count: int): (t: string)
    ensures count == 1 ==> t == "1 reaction"
    ensures count != 1 ==> EndsWithReactions(t)
  {
    IntToString(count) + " " + (if count == 1 then "reaction" else "reactions")
  }

  /** `t` ends in the plural noun. */
  predicate EndsWithReactions(t: string) {
    |t| >= 10 && t[|t| - 10..] == " reactions"
  }

  /**
   * A non-negative count's title is its numeral, a space and the noun: the
   * numeral has no leading zeros and reads back as the count, and the noun is
   * singular exactly for 1.
   */
  lemma ChipTitleShowsCount(count: nat) returns (digits: string, noun: string)
    ensures ChipTitle(count) == digits + " " + noun
    ensures IsDigits(digits) && ParseDigits(digits) == count
    ensures |digits| > 0 && (|digits| > 1 ==> digits[0] != '0')
    ensures noun == "reaction" <==> count == 1
    ensures noun == "reaction" || noun == "reactions"
  {
    ParseNatToString(count);
    digits := NatToString(count);
    noun := if count == 1 then "reaction" else "reactions";
  }

  /** How one chip is drawn (MessageReactions.tsx:41-54). */
  datatype Chip = Chip(emoji: string, count: int, title: string, highlighted: bool)

  /** The reactions of one message and the picker's open flag. */
  class ReactionBar {
    const messageId: int
    var reactions: Reactions
    const currentUserId: string
    var showEmojiPicker: bool

    /** The bar for a message, with the picker closed and the user taken from the decoded token (MessageReactions.tsx:19-20). */
    constructor (messageId: int, reactions: Reactions, session: JWTPayload)
      ensures this.messageId == messageId && this.reactions == reactions
      ensures currentUserId == IntToString(session.userId)
      ensures !showEmojiPicker
    {
      this.messageId := messageId;
      this.reactions := reactions;
      currentUserId := IntToString(session.userId);
      showEmojiPicker := false;
    }

    /**
     * A click on an emoji, on a chip or in the picker (MessageReactions.tsx:22-36):
     * with the socket closed nothing is sent and the picker stays as it is;
     * otherwise the toggle frame goes out and the picker closes.
     */
    method ReactionClick(emoji: string, socketOpen: bool, token: Option<string>) returns (sent: Option<Frame>)
      modifies this`showEmojiPicker
      ensures !socketOpen ==> sent == None && showEmojiPicker == old(showEmojiPicker)
      ensures socketOpen ==> sent == Some(ReactionFrame(reactions, emoji, currentUserId, messageId, token)) && !showEmojiPicker
    {
      if !socketOpen {
        sent := None;
      } else {
        sent := Some(ReactionFrame(reactions, emoji, currentUserId, messageId, token));
        showEmojiPicker := false;
      }
    }

    /** The "+" button (MessageReactions.tsx:58). */
    method TogglePicker()
      modifies this`showEmojiPicker
      ensures showEmojiPicker == !old(showEmojiPicker)
    {
      showEmojiPicker := !showEmojiPicker;
    }

    /** New reactions from the parent after a `reaction_update`. */
    method SetReactions(reactions: Reactions)
      modifies this`reactions
      ensures this.reactions == reactions
    {
      this.reactions := reactions;
    }

    /** The chip for an emoji in the map: highlighted exactly when a click on it would remove the user's reaction. */
    function ChipFor(emoji: string): (c: Chip)
      reads this
      requires emoji in reactions
      ensures c.emoji == emoji && c.count == reactions[emoji].count
      ensures c.title == ChipTitle(reactions[emoji].count)
      ensures c.highlighted <==> ReactionFrame(reactions, emoji, currentUserId, messageId, None).RemoveReaction?
    {
      var data := reactions[emoji];
      Chip(emoji, data.count, ChipTitle(data.count), currentUserId in data.users)
    }

    /** The emojis offered below the bar: the common set while the picker is open, none otherwise (MessageReactions.tsx:64-78). */
    function PickerEmojis(): (r: seq<string>)
      reads this
      ensures showEmojiPicker ==> r == CommonEmojis
      ensures !showEmojiPicker ==> r == []
    {
      if showEmojiPicker then CommonEmojis else []
    }
  }
}
