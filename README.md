# chat-genius-frontend: a Dafny model of four client components

This project models the client-side logic of the chat-genius web client,
a React application that talks to its server over REST and a WebSocket.
Four components carry that logic:

- **ThreadView** (`src/components/ThreadView.tsx`) is the side panel of one
  thread. It keeps the reply list in step with a fetch of the thread's
  messages and with three socket events: `thread_message`, `thread_created`
  and `reaction_update`. From the input box it sends `create_thread` (for a
  thread the server has not created yet, id `-1`) or `thread_message`. It
  sends `typing_start` and `typing_stop`. It also renders the
  "… is typing..." banner.
- **MentionAutocomplete** (`src/components/MentionAutocomplete.tsx`) is the
  @-mention menu. It shows the users whose name or email contains the search
  term, ignoring case. A cursor moves over the list with the arrow keys and
  the mouse. Enter or Tab picks a user and Escape cancels.
- **MessageReactions** (`src/components/MessageReactions.tsx`) shows the
  reaction chips under a message. A click sends `add_reaction` or
  `remove_reaction`, depending on whether the current user already reacted.
  It also holds the emoji picker's open flag.
- **ProtectedRoute** (`src/components/ProtectedRoute.tsx`) is the route
  guard. It renders its children only for a stored token that decodes and
  has not expired. An unreadable or expired token is removed.

Layout:

| File | Contents |
|---|---|
| `wrappers.dfy` | `Option` |
| `types.dfy` | The records of `src/types/Types.ts`, reduced to the fields these components use |
| `text.dfy` | The JavaScript string operations the components rely on: `trim` emptiness, `toLowerCase`, `includes`, and integer-to-decimal rendering |
| `seqs.dfy` | `Array.prototype.filter` and its laws |
| `frames.dfy` | The outbound WebSocket frames |
| `thread_replies.dfy` | The reply list as values: the stable sort by `created_at`, seeding from a fetch, merging a live reply, replacing reactions |
| `thread_view.dfy` | Thread creation, sending, the typing signal, the banner, and the `ThreadPanel` class that holds the panel's state |
| `mention.dfy` | The mention filter, the key handler and the `Menu` class |
| `reactions.dfy` | The reaction toggle, the chip title and the `ReactionBar` class |
| `protected_route.dfy` | The guard's decision and the `TokenStore` class |

The components mutate state in three ways: React state setters, the
`thread.id` assignment, and `localStorage.removeItem`. Each becomes a class
field with a method per event. A method's postcondition ties the new state
to a pure function, and the properties are proved about those functions. The
pure parts (the filter, the banner text, the frame choice, the guard decision)
are functions.

Modelling choices:

- `created_at` is an integer timestamp. `Array.prototype.sort` is stable
  (required since ECMAScript 2019), so it is modelled as a stable insertion
  sort. Its meaning is proved: the result is sorted, it is a permutation, and
  messages with equal timestamps keep their order.
- The socket's readiness (`readyState === WebSocket.OPEN`) is a boolean
  input. The stored token `localStorage.getItem('token')` is an
  `Option<string>`, where absent is `None`. An empty string is falsy, so it
  counts as no token wherever the code tests truthiness. The clock is an
  integer count of milliseconds.
- `jwtDecode` is a function parameter `string -> Option<JWTPayload>`, where
  `None` means it throws.
- The 3000 ms typing timer is an "armed" flag plus an explicit "timer fires"
  operation.
- A message's reactions form a map from emoji to `(count, users)`, the shape
  `MessageReactions.tsx` declares and reads (`MessageReactions.tsx:7-12`).
  `Types.ts` declares an array of `MessageReaction` for the same field
  (`src/types/Types.ts:20`), but the component code works on the map.
- `exp` is `Option<int>` although `Types.ts` types it as a number. The guard
  tests it for truthiness, so a missing or 0 `exp` never expires, and both
  cases are modelled.

## Model

| member | source | states |
|---|---|---|
| `Text.IsJsWhitespace` | src/components/ThreadView.tsx:103 | The characters `trim` removes: ECMAScript's WhiteSpace and LineTerminator code points |
| `Text.Blank` | src/components/ThreadView.tsx:103 | `!s.trim()`: every character of the input is one that `trim` removes |
| `Text.LowerChar` | src/components/MentionAutocomplete.tsx:22-23 | Each upper-case ASCII letter maps to its own lower-case letter (code point plus 32); every other character is unchanged |
| `Text.Lower` | src/components/MentionAutocomplete.tsx:22-23 | Lower-casing keeps the length and lower-cases each character in place |
| `Text.UpperChar` | src/components/MentionAutocomplete.tsx:22-23 | Each lower-case ASCII letter maps to its own upper-case letter (code point minus 32); every other character is unchanged. This is the case change that matching ignores |
| `Text.Upper` | src/components/MentionAutocomplete.tsx:22-23 | Upper-casing keeps the length and upper-cases each character in place |
| `Text.LowerUpper` | src/components/MentionAutocomplete.tsx:22-23 | Upper-casing a string first makes no difference once it is lower-cased |
| `Text.Includes` | src/components/MentionAutocomplete.tsx:22-23 | `t.includes(sub)` is true exactly when `sub` occurs at some position of `t` |
| `Text.NatToString` | src/components/ThreadView.tsx:272 | The numeral written for a count is non-empty and all decimal digits. It begins with 0 exactly for 0, and never has a leading zero |
| `Text.ParseNatToString` | src/components/ThreadView.tsx:272 | Reading the numeral of `n` back as decimal gives `n` |
| `Text.NatToStringInjective` | src/components/MessageReactions.tsx:49 | Different counts are written as different numerals |
| `Text.IntToString` | src/components/MessageReactions.tsx:20 | `toString()` of an id is a non-empty numeral: digits, after a minus sign exactly when the id is negative. It has no leading zero, either after the sign or without one, so it is the one string `toString()` writes |
| `Text.ParseIntToString` | src/components/MessageReactions.tsx:20 | Reading the string of any id back as a signed decimal gives the id |
| `Text.IntToStringInjective` | src/components/MessageReactions.tsx:25 | Distinct ids give distinct strings, so `users.includes` on the id string identifies the user |
| `Seqs.Filter` | src/components/ThreadView.tsx:51 | A filter returns no more elements than it gets, and each one is accepted by the predicate |
| `Seqs.FilterMembers` | src/components/ThreadView.tsx:257-260 | An element is in the filtered list exactly when it is in the input and accepted |
| `Seqs.FilterCount` | src/components/ThreadView.tsx:51 | A filter keeps every copy of an accepted element and no copy of a rejected one |
| `Seqs.FilterAppend` | src/components/MentionAutocomplete.tsx:21-24 | Filtering a concatenation is the concatenation of the filtered parts, so the input order is kept |
| `ThreadReplies.HasId` | src/components/ThreadView.tsx:70-71 | `findIndex(m => m.id === id) !== -1`: some message of the list carries the id |
| `ThreadReplies.WithoutId` | src/components/ThreadView.tsx:51 | The messages whose id is not the parent's, in order |
| `ThreadReplies.AcceptsReply` | src/components/ThreadView.tsx:66 | A live reply is taken exactly when its `thread_id` is this thread's id and its id is not the parent message's |
| `ThreadReplies.InsertByCreated` | src/components/ThreadView.tsx:72-74 | Inserting a message adds exactly that message to the multiset of replies |
| `ThreadReplies.InsertKeepsSorted` | src/components/ThreadView.tsx:74 | Inserting into a list sorted by `created_at` keeps it sorted |
| `ThreadReplies.InsertIsStable` | src/components/ThreadView.tsx:74 | Among messages with one timestamp, the inserted message comes after those already in the list |
| `ThreadReplies.SortByCreated` | src/components/ThreadView.tsx:52-54 | The sort returns a permutation of its input in ascending `created_at` order |
| `ThreadReplies.SortIsStable` | src/components/ThreadView.tsx:52-54 | The sort keeps messages with equal timestamps in their input order, as `Array.prototype.sort` does |
| `ThreadReplies.SortSortedIsIdentity` | src/components/ThreadView.tsx:74 | Re-sorting a list that is already in order leaves it unchanged |
| `ThreadReplies.FetchedReplies` | src/components/ThreadView.tsx:50-55 | The fetched list is sorted and never holds the parent message; every other fetched message is kept with its multiplicity |
| `ThreadReplies.PermutationHasId` | src/components/ThreadView.tsx:74 | Re-ordering a list keeps every id in it |
| `ThreadReplies.MergeReply` | src/components/ThreadView.tsx:66-75 | A reply for another thread, or the parent message itself, leaves the list unchanged. An accepted reply is present afterwards and the list is sorted. A known id adds nothing, and a new one adds exactly that message, inserted in place. The parent stays out |
| `ThreadReplies.MergeReplyIdempotent` | src/components/ThreadView.tsx:66-75 | Delivering the same `thread_message` twice has the effect of delivering it once |
| `ThreadReplies.ReplaceReactions` | src/components/ThreadView.tsx:82-91 | Length and order are kept. Messages with that id get exactly the new reaction map and no other field changes. Every other message is untouched |
| `ThreadReplies.ReplaceReactionsKeepsInvariant` | src/components/ThreadView.tsx:82-91 | A reaction update keeps the reply list sorted and free of the parent message |
| `ThreadReplies.ReplaceReactionsLastWins` | src/components/ThreadView.tsx:83-88 | A second update for a message replaces the first outright; the two sets are not merged |
| `ThreadView.ThreadCreated` | src/components/ThreadView.tsx:77-81 | A real id is never overwritten and another parent's thread is ignored. A pending thread with a matching parent takes the new id, and the refetch runs only when that id is real |
| `ThreadView.FirstConfirmation` | src/components/ThreadView.tsx:77-81 | Finds the first `thread_created` event that carries this parent and a real id |
| `ThreadView.CreationsPatchOnce` | src/components/ThreadView.tsx:77-81 | Over any run of `thread_created` events only the id changes. A real id stays. A pending thread takes the id of the first confirming event, or stays pending when there is none |
| `ThreadView.ReplyFrame` | src/components/ThreadView.tsx:105-123 | A pending thread gets `create_thread` on its parent message; a real one gets `thread_message` with its id. Both carry the channel, the text and the stored token |
| `ThreadView.Send` | src/components/ThreadView.tsx:102-128 | Nothing is sent exactly when the input is whitespace-only or the socket is not open, and then the input is kept. Otherwise the untrimmed text goes out in the reply frame and the box is cleared |
| `ThreadView.Keystroke` | src/components/ThreadView.tsx:130-161 | With the socket closed nothing changes. With it open, typing is on and the timer re-armed, and `typing_start` goes out exactly on the change from not typing |
| `ThreadView.Timeout` | src/components/ThreadView.tsx:149-159 | A firing timer ends typing and sends `typing_stop` exactly when the socket is open. A timer that is not armed changes nothing |
| `ThreadView.OneStartPerBurst` | src/components/ThreadView.tsx:138-146 | A burst of keystrokes sends `typing_start` at most once. It sends none if typing was already announced; otherwise it sends one exactly when some keystroke found the socket open |
| `Frames.Frame.Type` | src/components/ThreadView.tsx:107-157 | The wire `type` of each frame: `create_thread`, `thread_message`, `typing_start`, `typing_stop`, and the reaction frames' `add_reaction` and `remove_reaction` (MessageReactions.tsx:26) |
| `Types.ShownName` | src/components/ThreadView.tsx:263 | The display name, or the email when the name is empty (JavaScript's `display_name` falling back to `email`); the same rule labels mention rows (MentionAutocomplete.tsx:99) |
| `ThreadView.TypingInThread` | src/components/ThreadView.tsx:258 | `user.is_typing?.threads?.[thread.id]` is truthy: the flags exist, hold this thread, and say true |
| `ThreadView.TypingOther` | src/components/ThreadView.tsx:257-260 | The banner's filter: typing in this thread, and not the current user |
| `ThreadView.TypingUsers` | src/components/ThreadView.tsx:257-260 | The users the banner names, in roster order |
| `ThreadView.ShownNames` | src/components/ThreadView.tsx:263 | Each banner name is the user's display name, or the email when the name is empty, in order |
| `ThreadView.TypingBanner` | src/components/ThreadView.tsx:256-273 | No banner exactly when no other user is typing in this thread. Otherwise the sentence is built over the shown names of the typing users, in roster order |
| `ThreadView.TypingIndicator` | src/components/ThreadView.tsx:252-280 | There is no banner without a stored token. Otherwise the banner is computed for the user the token names |
| `ThreadView.BannerText` | src/components/ThreadView.tsx:264-273 | The four sentence templates for one, two, three, and four or more names; what they say is proved by the banner lemmas below |
| `ThreadView.OccursBetween` | src/components/ThreadView.tsx:264-273 | A name placed inside a sentence is contained in it |
| `ThreadView.BannerVerb` | src/components/ThreadView.tsx:264-273 | The sentence ends "is typing..." exactly for one name and "are typing..." exactly for more |
| `ThreadView.BannerNamesAll` | src/components/ThreadView.tsx:265-270 | With up to three typists every name appears in the sentence |
| `ThreadView.BannerNamesOne` | src/components/ThreadView.tsx:266 | The one-name sentence contains the name |
| `ThreadView.BannerNamesTwo` | src/components/ThreadView.tsx:268 | The two-name sentence contains both names |
| `ThreadView.BannerNamesThree` | src/components/ThreadView.tsx:270 | The three-name sentence contains all three names |
| `ThreadView.BannerCountsOthers` | src/components/ThreadView.tsx:271-272 | With four or more typists the sentence is exactly "<first>, <second>, and <count> others are typing...". `<count>` is a numeral without leading zeros that reads back as the number of typists not named, and both named users appear |
| `ThreadView.FirstTwoNamed` | src/components/ThreadView.tsx:270-272 | A sentence of the shape "<a>, <b>, and …" contains both `a` and `b` |
| `ThreadView.BannerOneName` | src/components/ThreadView.tsx:266 | Sample: "Ann is typing..." |
| `ThreadView.BannerTwoNames` | src/components/ThreadView.tsx:268 | Sample: "Ann and Bo are typing..." |
| `ThreadView.BannerThreeNames` | src/components/ThreadView.tsx:270 | Sample: "Ann" + ", " + "Bo" + ", and " + "Cy" + " are typing..." |
| `ThreadView.BannerFourNames` | src/components/ThreadView.tsx:272 | Sample: "Ann" + ", " + "Bo" + ", and " + "2" + " others are typing...", the count of the two unnamed typists |
| `ThreadView.ThreadPanel.constructor` | src/components/ThreadView.tsx:24-27 | A new panel has no replies, an empty input, no typing and no armed timer, and its list invariant holds |
| `ThreadView.ThreadPanel.FetchTarget` | src/components/ThreadView.tsx:46 | No fetch while the thread id is the pending `-1`; otherwise the fetch is for the thread's own id |
| `ThreadView.ThreadPanel.OnFetched` | src/components/ThreadView.tsx:44-61 | Status 200 replaces the list with the fetched replies; any other outcome keeps it. The invariant is kept |
| `ThreadView.ThreadPanel.OnThreadMessage` | src/components/ThreadView.tsx:65-76 | The list becomes the merge of the event. A known id leaves it unchanged. The invariant is kept |
| `ThreadView.ThreadPanel.OnThreadCreated` | src/components/ThreadView.tsx:77-81 | The thread and the fetch follow `ThreadCreated`. The parent message id and the replies stay |
| `ThreadView.ThreadPanel.OnReactionUpdate` | src/components/ThreadView.tsx:82-91 | The list becomes the reaction replacement of the event. The invariant is kept |
| `ThreadView.ThreadPanel.SendMessage` | src/components/ThreadView.tsx:102-128 | The frame sent and the new input are those of `Send` on the current input |
| `ThreadView.ThreadPanel.OnInputChange` | src/components/ThreadView.tsx:235-238 | The input takes the new text, and the keystroke drives the typing flag, the timer and `typing_start` |
| `ThreadView.ThreadPanel.OnTypingTimeout` | src/components/ThreadView.tsx:149-159 | The firing timer drives the typing flag and `typing_stop` |
| `MentionAutocomplete.Matches` | src/components/MentionAutocomplete.tsx:22-23 | The lower-cased display name or the lower-cased email includes the lower-cased term |
| `MentionAutocomplete.FilteredUsers` | src/components/MentionAutocomplete.tsx:21-24 | The menu lists no more users than the roster, and each listed user matches the term |
| `MentionAutocomplete.FilteredUsersMembers` | src/components/MentionAutocomplete.tsx:21-24 | A user is listed exactly when it is in the roster and the lower-cased term occurs in its lower-cased display name or email |
| `MentionAutocomplete.FilteredUsersInOrder` | src/components/MentionAutocomplete.tsx:21 | The list keeps roster order: each part of the roster contributes its own matches in place |
| `MentionAutocomplete.MatchesIgnoresCase` | src/components/MentionAutocomplete.tsx:22-23 | Matching ignores case: upper-casing the term, or a user's display name and email, does not change whether the user matches |
| `MentionAutocomplete.EmptyTermListsEveryone` | src/components/MentionAutocomplete.tsx:21-24 | An empty search term lists the whole roster |
| `MentionAutocomplete.HandleKey` | src/components/MentionAutocomplete.tsx:34-65 | Keys do nothing while the menu is hidden or empty. ArrowDown steps towards 0 and ArrowUp towards the last entry, each stopping at the end. Enter or Tab picks the entry under the cursor if it exists, else passes. Escape cancels. Other keys pass. A cursor on an entry stays on one |
| `MentionAutocomplete.CursorStaysInRange` | src/components/MentionAutocomplete.tsx:38-51 | A cursor that starts on an entry stays on an entry, whatever keys follow |
| `MentionAutocomplete.ArrowUpSaturates` | src/components/MentionAutocomplete.tsx:45-51 | `k` presses of ArrowUp move the cursor `k` entries up, stopping at the last one |
| `MentionAutocomplete.ArrowDownSaturates` | src/components/MentionAutocomplete.tsx:38-44 | `k` presses of ArrowDown move the cursor `k` entries towards 0, stopping there |
| `MentionAutocomplete.Menu.constructor` | src/components/MentionAutocomplete.tsx:19 | A mounted menu has its props and the cursor on the first entry |
| `MentionAutocomplete.Menu.SetSearchTerm` | src/components/MentionAutocomplete.tsx:26-29 | A changed search term puts the cursor back on 0; the same term leaves it |
| `MentionAutocomplete.Menu.SetUsers` | src/components/MentionAutocomplete.tsx:12-18 | A new roster replaces the old one and nothing else changes |
| `MentionAutocomplete.Menu.SetVisible` | src/components/MentionAutocomplete.tsx:12-18 | The visibility prop changes and nothing else does |
| `MentionAutocomplete.Menu.KeyDown` | src/components/MentionAutocomplete.tsx:31-70 | The cursor, the report and the swallowing of the key are those of `HandleKey` on the current list |
| `MentionAutocomplete.Menu.Hover` | src/components/MentionAutocomplete.tsx:94 | Hovering row `i` puts the cursor on `i` |
| `MentionAutocomplete.Menu.Click` | src/components/MentionAutocomplete.tsx:89-93 | A click on a drawn row picks the user that row shows |
| `MentionAutocomplete.Menu.Rows` | src/components/MentionAutocomplete.tsx:72-111 | Nothing is drawn exactly when the menu is hidden or empty. Otherwise there is one row per match in order, showing the display name or else the email, and only the cursor's row is highlighted |
| `MessageReactions.HasReacted` | src/components/MessageReactions.tsx:25 | `reactions[emoji]?.users.includes(userId)`: the emoji is in the map and the user is among its reactors |
| `MessageReactions.ReactionFrame` | src/components/MessageReactions.tsx:25-33 | `remove_reaction` exactly when the user is in the emoji's reactors; `add_reaction` otherwise, also for an emoji nobody used. The frame carries the given message id, emoji and token |
| `MessageReactions.ClickTogglesOwnReaction` | src/components/MessageReactions.tsx:25-26 | Once the user is listed the next click removes; once not, it adds. Other users' reactions do not change the decision |
| `MessageReactions.ChipTitle` | src/components/MessageReactions.tsx:49 | The title is "1 reaction" for a count of 1 and ends "reactions" for every other count |
| `MessageReactions.ChipTitleShowsCount` | src/components/MessageReactions.tsx:49 | The title is the count's numeral, a space and the noun. The numeral has no leading zeros and reads back as the count. The noun is "reaction" exactly for 1 and "reactions" otherwise |
| `MessageReactions.ReactionBar.constructor` | src/components/MessageReactions.tsx:19-20 | The picker starts closed, and the current user id is the token's `userId` as a string |
| `MessageReactions.ReactionBar.ReactionClick` | src/components/MessageReactions.tsx:22-36 | With the socket closed nothing is sent and the picker stays. Otherwise the toggle frame is sent and the picker closes |
| `MessageReactions.ReactionBar.TogglePicker` | src/components/MessageReactions.tsx:58 | The "+" button flips the picker |
| `MessageReactions.ReactionBar.SetReactions` | src/components/MessageReactions.tsx:18 | New reactions from the parent replace the old ones |
| `MessageReactions.ReactionBar.ChipFor` | src/components/MessageReactions.tsx:41-54 | A chip shows its emoji, its count and the pluralised title. It is highlighted exactly when a click on it would remove the user's reaction |
| `MessageReactions.ReactionBar.PickerEmojis` | src/components/MessageReactions.tsx:64-78 | The eight common emojis are offered while the picker is open, and none while it is closed |
| `ProtectedRoute.HasExpiry` | src/components/ProtectedRoute.tsx:21 | `decoded.exp` is truthy: present and not 0 |
| `ProtectedRoute.ExpiredAt` | src/components/ProtectedRoute.tsx:19-21 | `exp && exp < Date.now() / 1000`, stated on integers as `exp * 1000 < nowMs` |
| `ProtectedRoute.Decide` | src/components/ProtectedRoute.tsx:10-31 | No token, or an empty one, redirects without clearing. A token that fails to decode redirects and is cleared. A decoded token is cleared and redirected exactly when it is expired. The children render exactly for a decodable, unexpired token |
| `ProtectedRoute.NoExpiryNeverExpires` | src/components/ProtectedRoute.tsx:21 | A token whose `exp` is missing or 0 renders the children at every time |
| `ProtectedRoute.ExpiryBoundary` | src/components/ProtectedRoute.tsx:19-24 | A token is valid up to and including the millisecond `exp * 1000`, and expired from the next one on |
| `ProtectedRoute.ExpiryIsMonotone` | src/components/ProtectedRoute.tsx:19-24 | Once the guard clears a token, it would clear it at every later time |
| `ProtectedRoute.TokenStore.constructor` | src/components/ProtectedRoute.tsx:11 | The store holds the given token |
| `ProtectedRoute.TokenStore.Guard` | src/components/ProtectedRoute.tsx:11-31 | The outcome is the guard's decision on the stored token. The token is removed exactly when the decision clears it, and is untouched whenever the children render |
| `ProtectedRoute.GuardTwice` | src/components/ProtectedRoute.tsx:13-30 | A render that cleared the token is followed by a plain redirect. Two renders at the same time that render the children agree |

## Left out

- Scrolling (`scrollToBottom`, `ThreadView.tsx:30-42, 126`) is presentation. It changes no modelled state.
- JSON parsing of socket events and JSON encoding of frames are not modelled. The events are typed inputs of the panel's methods, and the frames are the `Frame` datatype. The constant `contextType: 'thread'` of the typing frames is implied by the frame kind.
- Real timers: the 3000 ms `setTimeout` and its `clearTimeout` are an armed flag plus the explicit `OnTypingTimeout` event. Re-arming a pending timer is setting the flag again.
- `jwtDecode` internals are not modelled; it is an abstract partial function. Token contents, signatures and base64 are out of scope.
- `toLowerCase` is modelled on ASCII letters only. Other Unicode case mappings are not.
- `Date` parsing of `created_at` strings is not modelled; timestamps are integers. Unparseable dates (`NaN` comparator results) are therefore out of scope.
- `Date.now() / 1000` is a float division. The model compares `exp * 1000 < nowMs` on integers, which agrees with it for integer `exp`.
- `ThreadView.TypingIndicator`: it requires a decodable token. When `jwtDecode` throws at `ThreadView.tsx:256`, the component's render fails, and the model does not describe that failure.
- `MessageReactions.ReactionBar.constructor`: it takes the decoded session. The component decodes `localStorage.getItem('token') as string` at `MessageReactions.tsx:20`, which throws when no token is stored; that failure is not modelled.
- The chips' order (`Object.entries` iteration order) is not modelled. `ChipFor` describes one chip per emoji key.
- The mention rows' `custom_status` line and the icon are presentation. A `Row` keeps the whole user, so the status is available but is not described.
- The `e.repeat` test on Enter (`ThreadView.tsx:240`) belongs to the browser's key events. `SendMessage` models one non-repeated Enter.
- The fetch on mount (`ThreadView.tsx:95-97`) and the fetch after `thread_created` are asynchronous. The model exposes them as `FetchTarget` and the `fetch` result of `OnThreadCreated`. The HTTP response arrives later as `OnFetched`. Interleavings of a fetch response with socket events are not modelled. A failed request (`catch`, `ThreadView.tsx:57-59`) is a non-200 status in `OnFetched`, which keeps the list.
- The WebSocket itself is a boolean "open" input. Connecting, closing and listener registration are not modelled.
- The `MessageReaction[]` type of `Message.reactions` in `Types.ts` is replaced by the map the component reads. The `attachments`, `timestamp` and nested `thread` fields of `Message` are omitted because no modelled component reads them.
- The picker's emoji list (`MessageReactions.tsx:16`) appears in the source as UTF-8 mis-decoded as Windows-1254, and four of its eight entries lost bytes in the process. The first and the last entries are byte for byte the same (`F0 9F 91`, the fourth byte lost), so as written the list holds one string twice. The second lost two bytes (`E2 ?? A4 EF B8 ??`). The fourth lost its third byte (`F0 9F ?? 89`), which fits several emojis such as the party popper and the watermelon. Only the third, fifth, sixth and seventh (tears of joy, thinking face, eyes, rocket) decode completely. `CommonEmojis` therefore holds readings for four entries: thumbs up, red heart, party popper and clapping hands are the likely intended emojis, not the bytes as written, and the duplicate entry is not modelled.
- `thread.id = data.thread.id` (`ThreadView.tsx:79`) assigns into the `thread` object that the parent component passed in, so the parent's copy changes too. The model keeps the thread inside the panel (`ThreadPanel.thread`) and does not capture that aliasing.
- The patched id is a dependency of the effect (`ThreadView.tsx:100`). At the next render of the panel, whatever causes it, the effect runs again: it re-registers the socket listener and fetches the replies a second time (`ThreadView.tsx:95-97`). The model does not model renders. It reports the one fetch that `thread_created` starts (the `fetch` result of `OnThreadCreated`), and the second fetch is not modelled. Its response, like any other, would arrive through `OnFetched`.
- `User.display_name` is a plain string; absent, `null` and empty are all the empty string. `user.display_name || user.email` and the optional chaining at `MentionAutocomplete.tsx:22` treat all three alike.
- All other repository components (the productivity tracker, file upload, the REST client, login and registration, the main page and message list, the menus, the routes and the purely presentational components) are not part of this model.
