/**
 * The thread side panel (src/components/ThreadView.tsx): the reply list it
 * keeps in step with fetches and socket events, the frames it sends for the
 * input box, its typing signal, and the "… is typing..." banner.
 *
 * The socket's readiness, the stored token and the HTTP status of a fetch are
 * inputs of the operations; the 3000 ms typing timer is an armed flag plus an
 * explicit "timer fires" operation.
 */
module ThreadView {
  import opened Wrappers
  import opened Types
  import opened Text
  import opened Frames
  import opened ThreadReplies
  import Seqs

  // ---------------------------------------------------------------------------
  // Thread creation: patching a pending thread's id

  /** The thread after a `thread_created` event, and the fetch that event starts. */
  datatype Patch = Patch(thread: Thread, fetch: Option<int>)

  /**
   * `thread_created` (ThreadView.tsx:77-81): only a pending thread with the
   * same parent message takes the new id; the refetch that follows runs only
   * when that id is real (ThreadView.tsx:46).
   */
  function ThreadCreated(t: Thread, created: Thread): (r: Patch)
    ensures t.id != PendingThreadId ==> r == Patch(t, None)
    ensures created.parentMessageId != t.parentMessageId ==> r == Patch(t, None)
    ensures t.id == PendingThreadId && created.parentMessageId == t.parentMessageId ==>
              r.thread == t.(id := created.id) &&
              r.fetch == (if created.id != PendingThreadId then Some(created.id) else None)
  {
    if created.parentMessageId == t.parentMessageId && t.id == PendingThreadId then
      var patched := t.(id := created.id);
      Patch(patched, if patched.id != PendingThreadId then Some(patched.id) else None)
    else Patch(t, None)
  }

  /** The thread after a run of `thread_created` events. */
  function AfterCreations(t: Thread, events: seq<Thread>): Thread
    decreases |events|
  {
    if events == [] then t else AfterCreations(ThreadCreated(t, events[0]).thread, events[1..])
  }

  /** Does some event of the run carry the thread's parent and a real id? */
  predicate ConfirmsParent(events: seq<Thread>, parentId: int) {
    exists i :: 0 <= i < |events| && events[i].parentMessageId == parentId && events[i].id != PendingThreadId
  }

  /** The index of the first event of the run that confirms the parent. */
  function FirstConfirmation(events: seq<Thread>, parentId: int): (i: nat)
    requires ConfirmsParent(events, parentId)
    ensures i < |events|
    ensures events[i].parentMessageId == parentId && events[i].id != PendingThreadId
    ensures forall j :: 0 <= j < i ==> !(events[j].parentMessageId == parentId && events[j].id != PendingThreadId)
  {
    if events[0].parentMessageId == parentId && events[0].id != PendingThreadId then 0
    else
      assert ConfirmsParent(events[1..], parentId) by {
        var i :| 0 <= i < |events| && events[i].parentMessageId == parentId && events[i].id != PendingThreadId;
        assert events[1..][i - 1] == events[i];
      }
      1 + FirstConfirmation(events[1..], parentId)
  }

  /**
   * Whatever `thread_created` events arrive, only the id changes; a real id is
   * never overwritten; a pending thread ends with the id of the first event
   * for its parent that carries a real id, and stays pending when there is none.
   */
  lemma {:induction false} CreationsPatchOnce(t: Thread, events: seq<Thread>)
    ensures AfterCreations(t, events) == t.(id := AfterCreations(t, events).id)
    ensures t.id != PendingThreadId ==> AfterCreations(t, events) == t
    ensures t.id == PendingThreadId && ConfirmsParent(events, t.parentMessageId) ==>
              AfterCreations(t, events).id == events[FirstConfirmation(events, t.parentMessageId)].id
    ensures t.id == PendingThreadId && !ConfirmsParent(events, t.parentMessageId) ==>
              AfterCreations(t, events) == t
    decreases |events|
  {
    if events != [] {
      var next := ThreadCreated(t, events[0]).thread;
      var rest := events[1..];
      CreationsPatchOnce(next, rest);
      if t.id == PendingThreadId {
        var e := events[0];
        if e.parentMessageId == t.parentMessageId && e.id != PendingThreadId {
          assert ConfirmsParent(events, t.parentMessageId);
          assert FirstConfirmation(events, t.parentMessageId) == 0;
        } else {
          assert next == t;
          assert ConfirmsParent(events, t.parentMessageId) <==> ConfirmsParent(rest, t.parentMessageId) by {
            if ConfirmsParent(events, t.parentMessageId) {
              var i :| 0 <= i < |events| && events[i].parentMessageId == t.parentMessageId && events[i].id != PendingThreadId;
              assert rest[i - 1] == events[i];
            }
            if ConfirmsParent(rest, t.parentMessageId) {
              var i :| 0 <= i < |rest| && rest[i].parentMessageId == t.parentMessageId && rest[i].id != PendingThreadId;
              assert events[i + 1] == rest[i];
            }
          }
          if ConfirmsParent(events, t.parentMessageId) {
            assert FirstConfirmation(events, t.parentMessageId) == 1 + FirstConfirmation(rest, t.parentMessageId);
          }
        }
      }
    }
  }

  // ---------------------------------------------------------------------------
  // Sending a reply

  /**
   * The frame for the text in the input box (ThreadView.tsx:105-123): a
   * pending thread is created on its parent message, a real one gets a reply.
   */
  function ReplyFrame(t: Thread, channelId: string, content: string, token: Option<string>): (f: Frame)
    ensures f.CreateThread? <==> t.id == PendingThreadId
    ensures f.ThreadReply? <==> t.id != PendingThreadId
    ensures f.CreateThread? ==> f.messageId == t.parentMessageId
    ensures f.ThreadReply? ==> f.threadId == t.id
    ensures (f.CreateThread? || f.ThreadReply?) && f.channelId == channelId && f.content == content && f.token == token
  {
    if t.id == PendingThreadId then CreateThread(channelId, t.parentMessageId, content, token)
    else ThreadReply(t.id, channelId, content, token)
  }

  /** What a send attempt puts on the wire, and what is left in the input box. */
  datatype SendResult = SendResult(sent: Option<Frame>, input: string)

  /**
   * `handleSendMessage` (ThreadView.tsx:102-128): blank input or a socket that
   * is not open sends nothing and keeps the input; otherwise the input text is
   * sent as it is (untrimmed) and the box is cleared.
   */
  function Send(input: string, socketOpen: bool, t: Thread, channelId: string, token: Option<string>): (r: SendResult)
    ensures r.sent == None <==> Blank(input) || !socketOpen
    ensures r.sent == None ==> r.input == input
    ensures r.sent.Some? ==> r.sent.value == ReplyFrame(t, channelId, input, token) && r.input == ""
  {
    if Blank(input) || !socketOpen then SendResult(None, input)
    else SendResult(Some(ReplyFrame(t, channelId, input, token)), "")
  }

  // ---------------------------------------------------------------------------
  // The typing signal

  /** Whether this client has announced typing, and whether the stop timer is armed. */
  datatype TypingState = TypingState(isTyping: bool, timerArmed: bool)

  /** The state after an input event, and whether a frame goes out. */
  datatype TypingStep = TypingStep(next: TypingState, signal: bool)

  /**
   * A keystroke (`handleTyping`, ThreadView.tsx:130-161): with the socket open
   * the timer is re-armed and `typing_start` goes out only on the change from
   * not typing; with it closed nothing happens.
   */
  function Keystroke(st: TypingState, socketOpen: bool): (r: TypingStep)
    ensures !socketOpen ==> r == TypingStep(st, false)
    ensures socketOpen ==> r.next == TypingState(true, true)
    ensures r.signal <==> socketOpen && !st.isTyping
  {
    if !socketOpen then TypingStep(st, false)
    else TypingStep(TypingState(true, true), !st.isTyping)
  }

  /**
   * The 3000 ms timer firing (ThreadView.tsx:149-159): typing ends, and
   * `typing_stop` goes out if the socket is open. A timer that is not armed
   * cannot fire, which the model renders as no change.
   */
  function Timeout(st: TypingState, socketOpen: bool): (r: TypingStep)
    ensures !st.timerArmed ==> r == TypingStep(st, false)
    ensures st.timerArmed ==> r.next == TypingState(false, false) && (r.signal <== socketOpen)
    ensures r.signal ==> st.timerArmed && socketOpen
  {
    if !st.timerArmed then TypingStep(st, false)
    else TypingStep(TypingState(false, false), socketOpen)
  }

  /** The number of `typing_start` frames a run of keystrokes sends when no timer fires in between. */
  function StartsInBurst(st: TypingState, socketOpen: seq<bool>): nat
    decreases |socketOpen|
  {
    if socketOpen == [] then 0
    else
      var step := Keystroke(st, socketOpen[0]);
      (if step.signal then 1 else 0) + StartsInBurst(step.next, socketOpen[1..])
  }

  /**
   * A burst of typing announces itself at most once: never when typing was
   * already announced, and otherwise exactly when some keystroke of the burst
   * found the socket open.
   */
  lemma {:induction false} OneStartPerBurst(st: TypingState, socketOpen: seq<bool>)
    ensures StartsInBurst(st, socketOpen) <= 1
    ensures st.isTyping ==> StartsInBurst(st, socketOpen) == 0
    ensures !st.isTyping ==> (StartsInBurst(st, socketOpen) == 1 <==> true in socketOpen)
    decreases |socketOpen|
  {
    if socketOpen != [] {
      var step := Keystroke(st, socketOpen[0]);
      OneStartPerBurst(step.next, socketOpen[1..]);
      assert socketOpen == [socketOpen[0]] + socketOpen[1..];
    }
  }

  // ---------------------------------------------------------------------------
  // The typing banner

  /** `user.is_typing?.threads?.[threadId]` is truthy. */
  predicate TypingInThread(u: User, threadId: int) {
    u.isTyping.Some? && threadId in u.isTyping.value.threads && u.isTyping.value.threads[threadId]
  }

  /** Typing in the thread and not the current user. */
  function TypingOther(threadId: int, currentUserId: int): User -> bool {
    (u: User) => TypingInThread(u, threadId) && u.id != currentUserId
  }

  /** The users the banner names, in roster order (ThreadView.tsx:257-260). */
  function TypingUsers(users: seq<User>, threadId: int, currentUserId: int): seq<User> {
    Seqs.Filter(TypingOther(threadId, currentUserId), users)
  }

  /** The names shown for a list of users (ThreadView.tsx:263). */
  function ShownNames(us: seq<User>): (names: seq<string>)
    ensures |names| == |us|
    ensures forall i :: 0 <= i < |us| ==> names[i] == ShownName(us[i])
  {
    seq(|us|, i requires 0 <= i < |us| => ShownName(us[i]))
  }

  /** The banner's sentence for one or more names (ThreadView.tsx:264-273). */
  function BannerText(names: seq<string>): string
    requires |names| >= 1
  {
    if |names| == 1 then names[0] + " is typing..."
    else if |names| == 2 then names[0] + " and " + names[1] + " are typing..."
    else if |names| == 3 then names[0] + ", " + names[1] + ", and " + names[2] + " are typing..."
    else names[0] + ", " + names[1] + ", and " + NatToString(|names| - 2) + " others are typing..."
  }

  /**
   * The banner for a given current user (ThreadView.tsx:256-273): none when
   * nobody else is typing in this thread, otherwise the sentence over the
   * shown names of those who are.
   */
  function TypingBanner(users: seq<User>, threadId: int, currentUserId: int): (r: Option<string>)
    ensures r == None <==> forall u :: u in users ==> !TypingOther(threadId, currentUserId)(u)
    ensures r.Some? ==> TypingUsers(users, threadId, currentUserId) != [] &&
                        r.value == BannerText(ShownNames(TypingUsers(users, threadId, currentUserId)))
  {
    var typing := TypingUsers(users, threadId, currentUserId);
    forall u ensures u in typing <==> u in users && TypingOther(threadId, currentUserId)(u) {
      Seqs.FilterMembers(TypingOther(threadId, currentUserId), users, u);
    }
    if typing == [] then None else Some(BannerText(ShownNames(typing)))
  }

  /**
   * The banner as rendered (ThreadView.tsx:252-280): no banner without a
   * stored token; otherwise the current user is the one the token names.
   * Rendering fails outright when the token does not decode, so the model
   * asks for a decodable token.
   */
  function TypingIndicator(token: Option<string>, decode: string -> Option<JWTPayload>,
                           users: seq<User>, threadId: int): (r: Option<string>)
    requires token.Some? && token.value != "" ==> decode(token.value).Some?
    ensures token == None || token == Some("") ==> r == None
    ensures token.Some? && token.value != "" ==>
              r == TypingBanner(users, threadId, decode(token.value).value.userId)
  {
    if token.None? || token.value == "" then None
    else TypingBanner(users, threadId, decode(token.value).value.userId)
  }

  /** `t` ends with `suffix`. */
  predicate EndsWith(t: string, suffix: string) {
    |suffix| <= |t| && t[|t| - |suffix|..] == suffix
  }

  /** A string placed between two others occurs in the whole. */
  lemma OccursBetween(a: string, sub: string, b: string)
    ensures Includes(a + sub + b, sub)
  {
    assert OccursAt(sub, a + sub + b, |a|) by {
      assert (a + sub + b)[|a|..|a| + |sub|] == sub;
    }
  }

  /** The banner's verb agrees with the number of names: "is" for one, "are" otherwise. */
  lemma BannerVerb(names: seq<string>)
    requires |names| >= 1
    ensures |names| == 1 <==> EndsWith(BannerText(names), " is typing...")
    ensures |names| > 1 <==> EndsWith(BannerText(names), " are typing...")
  {
    var t := BannerText(names);
    var single, plural := " is typing...", " are typing...";
    if |names| == 1 {
      assert t == names[0] + single;
      assert t[|t| - |single|..] == single;
      assert !EndsWith(t, plural) by {
        if |plural| <= |t| { assert t[|t| - |plural|..][1] == ' '; }
      }
    } else {
      var front := if |names| == 2 then names[0] + " and " + names[1]
                   else if |names| == 3 then names[0] + ", " + names[1] + ", and " + names[2]
                   else names[0] + ", " + names[1] + ", and " + NatToString(|names| - 2) + " others";
      assert t == front + plural;
      assert t[|t| - |plural|..] == plural;
      assert !EndsWith(t, single) by {
        assert t[|t| - |single|..][0] == 'a';
      }
    }
  }

  /** With at most three typists the banner names every one of them. */
  lemma BannerNamesAll(names: seq<string>)
    requires 1 <= |names| <= 3
    ensures forall i :: 0 <= i < |names| ==> Includes(BannerText(names), names[i])
  {
    if |names| == 1 {
      BannerNamesOne(names);
    } else if |names| == 2 {
      BannerNamesTwo(names);
    } else {
      BannerNamesThree(names);
    }
  }

  /** The one-name banner contains that name. */
  lemma BannerNamesOne(names: seq<string>)
    requires |names| == 1
    ensures Includes(BannerText(names), names[0])
  {
    var t := BannerText(names);
    assert t == [] + names[0] + " is typing...";
    OccursBetween([], names[0], " is typing...");
  }

  /** The two-name banner contains both names. */
  lemma BannerNamesTwo(names: seq<string>)
    requires |names| == 2
    ensures Includes(BannerText(names), names[0]) && Includes(BannerText(names), names[1])
  {
    var t, plural := BannerText(names), " are typing...";
    assert t == [] + names[0] + (" and " + names[1] + plural);
    OccursBetween([], names[0], " and " + names[1] + plural);
    assert t == (names[0] + " and ") + names[1] + plural;
    OccursBetween(names[0] + " and ", names[1], plural);
  }

  /** The three-name banner contains all three names. */
  lemma BannerNamesThree(names: seq<string>)
    requires |names| == 3
    ensures Includes(BannerText(names), names[0]) && Includes(BannerText(names), names[1])
    ensures Includes(BannerText(names), names[2])
  {
    var t, plural := BannerText(names), " are typing...";
    var tail := ", " + names[1] + ", and " + names[2] + plural;
    assert t == [] + names[0] + tail;
    OccursBetween([], names[0], tail);
    assert t == (names[0] + ", ") + names[1] + (", and " + names[2] + plural);
    OccursBetween(names[0] + ", ", names[1], ", and " + names[2] + plural);
    assert t == (names[0] + ", " + names[1] + ", and ") + names[2] + plural;
    OccursBetween(names[0] + ", " + names[1] + ", and ", names[2], plural);
  }

  /**
   * With four or more typists the banner names the first two and ends
   * "<count> others are typing...", where <count> is a numeral without
   * leading zeros that reads back as the number of typists it does not name.
   */
  lemma BannerCountsOthers(names: seq<string>) returns (count: string)
    requires |names| >= 4
    ensures Includes(BannerText(names), names[0]) && Includes(BannerText(names), names[1])
    ensures BannerText(names) == names[0] + ", " + names[1] + ", and " + count + " others are typing..."
    ensures IsDigits(count) && ParseDigits(count) == |names| - 2
    ensures |count| > 0 && (|count| > 1 ==> count[0] != '0')
  {
    count := NatToString(|names| - 2);
    ParseNatToString(|names| - 2);
    FirstTwoNamed(names[0], names[1], count, " others are typing...");
  }

  /** A sentence of the shape "<a>, <b>, and <c><rest>" contains both `a` and `b`. */
  lemma FirstTwoNamed(a: string, b: string, c: string, rest: string)
    ensures Includes(a + ", " + b + ", and " + c + rest, a)
    ensures Includes(a + ", " + b + ", and " + c + rest, b)
  {
    var t := a + ", " + b + ", and " + c + rest;
    var tail := ", and " + c + rest;
    assert t == [] + a + (", " + b + tail);
    OccursBetween([], a, ", " + b + tail);
    assert t == (a + ", ") + b + tail;
    OccursBetween(a + ", ", b, tail);
  }

  /**
   * The banner's four forms on sample names; the longer sentences are written
   * as the pieces of the template they fill. First, one name.
   */
  lemma BannerOneName()
    ensures BannerText(["Ann"]) == "Ann is typing..."
  {}

  /** Two sample names. */
  lemma BannerTwoNames()
    ensures BannerText(["Ann", "Bo"]) == "Ann and Bo are typing..."
  {}

  /** Three sample names. */
  lemma BannerThreeNames()
    ensures BannerText(["Ann", "Bo", "Cy"]) == "Ann" + ", " + "Bo" + ", and " + "Cy" + " are typing..."
  {}

  /** Four sample names: the last two are counted, not named. */
  lemma BannerFourNames()
    ensures BannerText(["Ann", "Bo", "Cy", "Di"]) == "Ann" + ", " + "Bo" + ", and " + "2" + " others are typing..."
  {
    assert NatToString(2) == "2";
  }

  // ---------------------------------------------------------------------------
  // The panel

  /** One open thread panel: the thread it shows, its reply list, its input box and typing state. */
  class ThreadPanel {
    var thread: Thread
    const channelId: string
    var messages: seq<Message>
    var input: string
    var isTyping: bool
    var typingTimerArmed: bool

    /** The reply list is in creation order and never holds the parent message. */
    ghost predicate Valid()
      reads this
    {
      Sorted(messages) && ExcludesId(messages, thread.parentMessageId)
    }

    /** The typing flag and the timer, as one value. */
    function Typing(): TypingState
      reads this
    {
      TypingState(isTyping, typingTimerArmed)
    }

    /** A freshly opened panel: no replies yet, empty input, not typing (ThreadView.tsx:24-27). */
    constructor (thread: Thread, channelId: string)
      ensures Valid()
      ensures this.thread == thread && this.channelId == channelId
      ensures messages == [] && input == "" && !isTyping && !typingTimerArmed
    {
      this.thread := thread;
      this.channelId := channelId;
      messages := [];
      input := "";
      isTyping := false;
      typingTimerArmed := false;
    }

    /** The thread whose replies a fetch asks for; none while the thread is pending (ThreadView.tsx:46, 95-97). */
    function FetchTarget(): (r: Option<int>)
      reads this
      ensures r == None <==> thread.id == PendingThreadId
      ensures r.Some? ==> r.value == thread.id
    {
      if thread.id != PendingThreadId then Some(thread.id) else None
    }

    /** A fetch's response: status 200 replaces the list; any other outcome keeps it (ThreadView.tsx:48-59). */
    method OnFetched(status: int, fetched: seq<Message>)
      requires Valid()
      modifies this`messages
      ensures Valid()
      ensures messages == if status == 200 then FetchedReplies(fetched, thread.parentMessageId) else old(messages)
    {
      if status == 200 {
        messages := FetchedReplies(fetched, thread.parentMessageId);
      }
    }

    /** A `thread_message` event (ThreadView.tsx:65-76). */
    method OnThreadMessage(m: Message)
      requires Valid()
      modifies this`messages
      ensures Valid()
      ensures messages == MergeReply(old(messages), thread.id, thread.parentMessageId, m)
      ensures HasId(old(messages), m.id) ==> messages == old(messages)
    {
      messages := MergeReply(messages, thread.id, thread.parentMessageId, m);
    }

    /**
     * A `thread_created` event (ThreadView.tsx:77-81): the thread id may be
     * patched; the replies gathered so far stay.
     */
    method OnThreadCreated(created: Thread) returns (fetch: Option<int>)
      requires Valid()
      modifies this`thread
      ensures Valid()
      ensures Patch(thread, fetch) == ThreadCreated(old(thread), created)
      ensures thread.parentMessageId == old(thread).parentMessageId
    {
      var p := ThreadCreated(thread, created);
      thread, fetch := p.thread, p.fetch;
    }

    /** A `reaction_update` event (ThreadView.tsx:82-91). */
    method OnReactionUpdate(messageId: int, reactions: Reactions)
      requires Valid()
      modifies this`messages
      ensures Valid()
      ensures messages == ReplaceReactions(old(messages), messageId, reactions)
    {
      ReplaceReactionsKeepsInvariant(messages, messageId, reactions, thread.parentMessageId);
      messages := ReplaceReactions(messages, messageId, reactions);
    }

    /** Enter in the input box (ThreadView.tsx:102-128, 239-244). */
    method SendMessage(socketOpen: bool, token: Option<string>) returns (sent: Option<Frame>)
      modifies this`input
      ensures SendResult(sent, input) == Send(old(input), socketOpen, thread, channelId, token)
    {
      var r := Send(input, socketOpen, thread, channelId, token);
      sent, input := r.sent, r.input;
    }

    /** The input box changes: its text is stored and the keystroke drives the typing signal (ThreadView.tsx:235-238). */
    method OnInputChange(value: string, socketOpen: bool, token: Option<string>) returns (sent: Option<Frame>)
      modifies this`input, this`isTyping, this`typingTimerArmed
      ensures input == value
      ensures Typing() == Keystroke(old(Typing()), socketOpen).next
      ensures sent == if Keystroke(old(Typing()), socketOpen).signal then Some(TypingStart(thread.id, token)) else None
    {
      input := value;
      var step := Keystroke(Typing(), socketOpen);
      isTyping, typingTimerArmed := step.next.isTyping, step.next.timerArmed;
      sent := if step.signal then Some(TypingStart(thread.id, token)) else None;
    }

    /** The typing timer fires (ThreadView.tsx:149-159). */
    method OnTypingTimeout(socketOpen: bool, token: Option<string>) returns (sent: Option<Frame>)
      modifies this`isTyping, this`typingTimerArmed
      ensures Typing() == Timeout(old(Typing()), socketOpen).next
      ensures sent == if Timeout(old(Typing()), socketOpen).signal then Some(TypingStop(thread.id, token)) else None
    {
      var step := Timeout(Typing(), socketOpen);
      isTyping, typingTimerArmed := step.next.isTyping, step.next.timerArmed;
      sent := if step.signal then Some(TypingStop(thread.id, token)) else None;
    }
  }
}
