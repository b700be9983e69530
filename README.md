# TurkmenTV voting and lottery front end: the logic inside the components

This project models, in Dafny, the small pieces of logic inside four React components of the
voting and lottery web client.

- **Live vote tally** (`components/vote/ParticipantsList.tsx`), in modules `VoteTally` and `VoteSocket`.
  - The reducer applies one SMS vote message from the push channel: one more vote for every item with the message's `voting_item_id`, then a stable re-sort by vote count, descending.
  - `addVotes` is its debug twin. It adds 10000 votes to index 5, then re-sorts.
  - The winner counter, and the two render selections: the top "winner" block and the lower list.
  - The socket effect's connect / ping / close / reconnect / teardown state machine. It is a class whose fields are the effect's `let` variables, with one method per browser event.
- **Rolling digit strip** (`components/lottery/RollingCounter/RollingCounter.tsx`), in module `RollingCounter`.
  - `getNumbers`, the nested push loops that build the reel of digits each wheel scrolls through. It is an imperative method proved equal to a specification function.
  - The target row that the animation offset selects.
  - The parsing of the number string into digits.
  - The separator rule.
  - The per-digit "stopped" flags.
- **Lottery login form** (`components/lottery/auth/LotteryAuthForm.tsx`), in module `LotteryAuth`.
  - The phone and code regular expressions, written out as character predicates and characterised exactly.
  - The phone-input filter.
  - The order of checks in `handleSubmit`, and its loading and error state across the request's outcomes.
  - The submit button's disabled rule.
- **Slot display** (`components/lottery/slotCounter/LotterySlotCounter.tsx`), in module `SlotCounter`: the hyphen-to-comma rewrite.

`Common` holds `Option` (JavaScript `null`/`undefined`) and the truthiness test of an optional string.

## Behaviour kept as the code has it

Several behaviours of the code are not what a reader of the page would expect. The model keeps each of them as written.

- **Unknown id.** One might expect a message whose id matches no item to leave the list as it was. The code still re-sorts it, so the result is the stable sort of the input. That equals the input only when the input was already descending (`VoteTally.HandleMessageUnknownId`).
- **Reconnects.** One might expect the page to keep reconnecting after every close. The code sets `reconnectTimeout` once and never resets it to `null`. So one run of the effect creates at most one reconnect timer and makes at most two connection attempts (`VoteSocket.SocketEffect.AtMostOneReconnect`).
- **Teardown.** One might expect the cleanup to end all channel activity. The code's cleanup calls `socket.close()` while the `onclose` handler is still attached.
  - When no reconnect had been scheduled before, the close event that follows schedules one.
  - The socket that reconnect opens starts a ping interval that outlives the cleanup. The interval runs until that socket closes, and that close clears it and reconnects no more.
  - The scenario method `VoteSocket.CloseAfterTeardownReconnects` walks through this sequence.
- **Winners count.** One might expect the winner count to follow the live tally. The code calls `winnersCountHandle` only from the mount effect, on the initial empty list.
- **Phone filter.** `/\\D/g` matches the literal two characters backslash and `D`, not non-digits.
  - Letters, `+` and spaces reach `phone` unchanged (`LotteryAuth.TypedLetterIsKept`).
  - Such a phone then fails the phone check on submit (`LotteryAuth.LetterPhoneFailsSubmit`).
  - The length limit counts UTF-16 code units, as `value.length` does. So a character outside the Basic Multilingual Plane counts twice (`LotteryAuth.TooLongInputsAreIgnored`).

## Model

| member | source | states |
|---|---|---|
| VoteTally.SortByVotesCorrect | components/vote/ParticipantsList.tsx:155 | the sort by `b.votes_count - a.votes_count` gives a non-increasing list that is a permutation of its input, and it keeps every tie class (the items of one count) in input order |
| VoteTally.SortByVotesRanked | components/vote/ParticipantsList.tsx:155 | an already descending list is returned unchanged |
| VoteTally.StableSortUnique | components/vote/ParticipantsList.tsx:155 | two descending lists with the same tie classes are equal, so any stable descending sort gives the same result |
| VoteTally.SortByVotesCharacterized | components/vote/ParticipantsList.tsx:155 | every descending list with the input's tie classes is the modelled sort's result, whatever stable algorithm the engine uses |
| VoteTally.MeasuresSort | components/vote/ParticipantsList.tsx:155 | sorting keeps the multiset of ids and the total number of votes |
| VoteTally.VotesForSort | components/vote/ParticipantsList.tsx:155 | sorting keeps the votes held under every id |
| VoteTally.BumpAllPointwise | components/vote/ParticipantsList.tsx:150-152 | the map keeps the length; each item with the message's id gains exactly one vote in place, and every other item is unchanged |
| VoteTally.MeasuresBump | components/vote/ParticipantsList.tsx:150-152 | the map keeps the ids in order; the total rises by the number of matching items, and only the matching id's votes change |
| VoteTally.HandleMessageRanks | components/vote/ParticipantsList.tsx:145-157 | after a message the list is descending, has the same length, is a permutation of the mapped list, and keeps each tie class of the mapped list in order |
| VoteTally.HandleMessageCounts | components/vote/ParticipantsList.tsx:145-157 | a message keeps the multiset of ids, raises the total by the number of matching items, and changes only the matching id's votes |
| VoteTally.HandleMessageUnknownId | components/vote/ParticipantsList.tsx:150-155 | a message for an id no item has gives the stable sort of the input, and gives the input itself when it was already descending |
| VoteTally.HandleMessagesIds | components/vote/ParticipantsList.tsx:145-157 | any run of messages keeps the multiset of ids |
| VoteTally.HandleMessagesCounts | components/vote/ParticipantsList.tsx:145-157 | after a run of messages, every id has gained (messages for it) × (items with it) votes |
| VoteTally.VoteBreaksTie | components/vote/ParticipantsList.tsx:150-155 | a vote for the second of two tied leaders moves it to the front, and the others keep their order |
| VoteTally.AddVotesSpec | components/vote/ParticipantsList.tsx:159-171 | addVotes gives a descending permutation (by ids) of its input, adds 10000 to the total exactly when there are more than five items, keeps the tie classes of the list in which only index 5 is boosted, and with five or fewer items only re-sorts |
| VoteTally.WinnersCountHandle | components/vote/ParticipantsList.tsx:173-182 | the loop counts the items with 100 percent and the first item's vote count, so 0 for an empty list; the winners-count state is written only when some item matched |
| VoteTally.WinnersWithinTieClass | components/vote/ParticipantsList.tsx:176 | the counted items are exactly the list's items that meet the winner test, and they are at most the size of the top tie class |
| VoteTally.WinnersSpec | components/vote/ParticipantsList.tsx:173-182 | an item is a winner iff it is in the list with 100 percent and the top count; with no 100-percent item there are none |
| VoteTally.TopBlockSpec | components/vote/ParticipantsList.tsx:235-238 | an empty list throws a TypeError on `participantsData[0]`; the block is shown iff the first count is positive; its first card is the first item, and it holds exactly the items with the first item's count |
| VoteTally.LowerListSpec | components/vote/ParticipantsList.tsx:281-283 | the lower list holds exactly the items whose id differs from the first item's id, and only when `voteStatus` is truthy |
| VoteTally.TiedItemShownTwice | components/vote/ParticipantsList.tsx:235-238 | an item tied with the first item but with another id appears both in the top block and in the lower list |
| VoteSocket.SocketEffect.Run | components/vote/ParticipantsList.tsx:128-130 | the effect connects only for a truthy SMS number; a throwing `new WebSocket` leaves `socket` null; nothing runs yet |
| VoteSocket.SocketEffect.OnOpen | components/vote/ParticipantsList.tsx:79-92 | open marks the page connected and starts the ping interval, and nothing else changes |
| VoteSocket.SocketEffect.OnPingTick | components/vote/ParticipantsList.tsx:83-91 | a ping is sent only while the socket is OPEN |
| VoteSocket.SocketEffect.OnMessage | components/vote/ParticipantsList.tsx:94-102 | a parsed message replaces the items by the reducer's result; a malformed one changes no state |
| VoteSocket.SocketEffect.OnClose | components/vote/ParticipantsList.tsx:108-122 | close marks the page disconnected and stops the ping; it schedules a reconnect only if `reconnectTimeout` was never set, and leaves it set |
| VoteSocket.SocketEffect.OnReconnectTimer | components/vote/ParticipantsList.tsx:117-120 | the timer's firing makes one more connection attempt with the same address |
| VoteSocket.SocketEffect.Teardown | components/vote/ParticipantsList.tsx:132-142 | the cleanup starts closing a connecting or open socket, and clears the pending reconnect and the ping interval |
| VoteSocket.SocketEffect.AtMostOneReconnect | components/vote/ParticipantsList.tsx:116-121 | in every reachable state at most one reconnect timer was created and at most two connection attempts were made |
| RollingCounter.PushRolls | components/lottery/RollingCounter/RollingCounter.tsx:20-24 | the nested loops append ROLLS full cycles 0..9 |
| RollingCounter.PushBefore | components/lottery/RollingCounter/RollingCounter.tsx:27-29 | the countdown loop appends the two digits before the value |
| RollingCounter.PushAfter | components/lottery/RollingCounter/RollingCounter.tsx:34-36 | the loop appends the five digits after the value, wrapping with `%` |
| RollingCounter.GetNumbers | components/lottery/RollingCounter/RollingCounter.tsx:15-73 | getNumbers builds the reel: the lead-in for the previous value (when there is one), then the landing window around the target |
| RollingCounter.ReelShape | components/lottery/RollingCounter/RollingCounter.tsx:15-73 | the reel has 28 entries without a previous value and 51 with one; the first 20 are `i % 10`; the row that the offset of line 101 scrolls to is `length - 5 - 1`, and it holds the target |
| RollingCounter.LandingDigits | components/lottery/RollingCounter/RollingCounter.tsx:59-68 | for a digit t the landing window reads (t-2)%10, (t-1)%10, t, (t+1)%10, …, (t+5)%10 |
| RollingCounter.ReelWindow | components/lottery/RollingCounter/RollingCounter.tsx:26-35 | the eight entries ending the reel are the target's window, each `(t + offset) % 10` from the target row |
| RollingCounter.ReelFromPrevious | components/lottery/RollingCounter/RollingCounter.tsx:45-57 | with a previous digit p, entries 20..22 are (p-2)%10, (p-1)%10, p, followed by two full cycles |
| RollingCounter.ReelDigits | components/lottery/RollingCounter/RollingCounter.tsx:15-73 | for digit inputs every reel entry is a digit 0..9 |
| RollingCounter.StripHyphensSpec | components/lottery/RollingCounter/RollingCounter.tsx:143-144 | `replace(/-/g, '')` leaves no hyphen, keeps every other character's multiplicity, shortens by the hyphen count, and leaves hyphen-free text unchanged |
| RollingCounter.ParseNumbersSpec | components/lottery/RollingCounter/RollingCounter.tsx:140-154 | the parsed digits are the values of the non-hyphen characters in order, one per non-hyphen character; the empty string gives [] |
| RollingCounter.InitialStoppedSpec | components/lottery/RollingCounter/RollingCounter.tsx:148-150 | the stopped flags start all false, one per parsed digit |
| RollingCounter.ShowHyphenSpec | components/lottery/RollingCounter/RollingCounter.tsx:182 | a separator follows digit i exactly when i is odd and not the last |
| RollingCounter.HyphensShownPrefix | components/lottery/RollingCounter/RollingCounter.tsx:182 | before digit k, with k not past the last digit, k/2 separators are drawn |
| RollingCounter.HyphensShownTotal | components/lottery/RollingCounter/RollingCounter.tsx:182 | a strip of n digits draws (n-1)/2 separators |
| RollingCounter.MarkStoppedSpec | components/lottery/RollingCounter/RollingCounter.tsx:156-162 | completing digit i sets flag i and keeps every other flag; an in-range index keeps the length |
| RollingCounter.MarkAllSpec | components/lottery/RollingCounter/RollingCounter.tsx:156-162 | after any run of in-range completions, a flag is set iff it was set before or its digit completed |
| LotteryAuth.DigitsToEndSpec | components/lottery/auth/LotteryAuthForm.tsx:17 | `\d{n}$` matches exactly the strings of n ASCII digits |
| LotteryAuth.ValidatePhoneSpec | components/lottery/auth/LotteryAuthForm.tsx:16-21 | a phone is valid iff it has 11 characters, starts with "993", and the other 8 are ASCII digits |
| LotteryAuth.PhonePlaceholder | components/lottery/auth/LotteryAuthForm.tsx:16-21 | a number of the placeholder's shape is accepted; with a `+` in front it is rejected |
| LotteryAuth.ValidateCodeSpec | components/lottery/auth/LotteryAuthForm.tsx:23-28 | a code is valid iff it has at least 12 characters, the last 10 are ASCII digits, the one before them is `-`, and the prefix (which may hold `-`) has no line terminator |
| LotteryAuth.CodeFromParts | components/lottery/auth/LotteryAuthForm.tsx:24 | any prefix free of line terminators, a `-` and ten digits make a valid code |
| LotteryAuth.ShortCodeRejected | components/lottery/auth/LotteryAuthForm.tsx:23-28 | a code of at most 11 characters is rejected |
| LotteryAuth.RemoveBackslashDLength | components/lottery/auth/LotteryAuthForm.tsx:67 | the filter never lengthens its input, and text without a backslash passes through unchanged |
| LotteryAuth.RemoveBackslashDKeeps | components/lottery/auth/LotteryAuthForm.tsx:67 | every character other than `\` and `D` keeps its multiplicity |
| LotteryAuth.RemoveBackslashDPairs | components/lottery/auth/LotteryAuthForm.tsx:67 | the length drops by two for each deleted backslash, and likewise for each deleted `D` |
| LotteryAuth.RemoveBackslashDNotIdempotent | components/lottery/auth/LotteryAuthForm.tsx:67 | one pass over "\\DD" leaves "\D", which a second pass deletes |
| LotteryAuth.Utf16LengthSpec | components/lottery/auth/LotteryAuthForm.tsx:68 | `value.length` counts one to two code units per character, and exactly one per character iff all characters are at most U+FFFF |
| LotteryAuth.Utf16LengthAppend | components/lottery/auth/LotteryAuthForm.tsx:68 | the code-unit length of a concatenation is the sum of the lengths |
| LotteryAuth.BmpLength | components/lottery/auth/LotteryAuthForm.tsx:68 | text in the Basic Multilingual Plane has one code unit per character |
| LotteryAuth.AstralCharCountsTwo | components/lottery/auth/LotteryAuthForm.tsx:68 | a character above U+FFFF adds two code units |
| LotteryAuth.LetterPhoneRejected | components/lottery/auth/LotteryAuthForm.tsx:16-21 | a phone with a letter among its digits is rejected |
| LotteryAuth.SubmitDecisionSpec | components/lottery/auth/LotteryAuthForm.tsx:30-44 | a request is sent iff both inputs are valid (stated character by character), so never from an empty input; an invalid phone is rejected whatever the code |
| LotteryAuth.LotteryAuthForm.constructor | components/lottery/auth/LotteryAuthForm.tsx:9-12 | the form starts empty, with no error and not loading |
| LotteryAuth.LotteryAuthForm.HandlePhoneChange | components/lottery/auth/LotteryAuthForm.tsx:66-71 | the filtered input replaces the phone only when its JavaScript length (UTF-16 code units) is at most 11; otherwise the phone is unchanged |
| LotteryAuth.LotteryAuthForm.HandleCodeChange | components/lottery/auth/LotteryAuthForm.tsx:73-78 | the code is stored as typed |
| LotteryAuth.LotteryAuthForm.HandleSubmit | components/lottery/auth/LotteryAuthForm.tsx:30-44 | the error is cleared first; an invalid phone sets "Telefon belgisi nädogry" with no code check and no request; an invalid code sets "Açar nädogry" with no request; only valid inputs start loading and the request, which disables the button (line 132) |
| LotteryAuth.LotteryAuthForm.FinishRequest | components/lottery/auth/LotteryAuthForm.tsx:46-63 | a truthy `errorMessage` is shown; a thrown request shows "Telefon belgisi ýa-da açar nädogry"; any other answer signs in with the submitted phone and code; loading ends on every path, leaving the button disabled iff an input is empty |
| SlotCounter.FormatSlotPointwise | components/lottery/slotCounter/LotterySlotCounter.tsx:10 | the display has the input's length; each `-` becomes `,` in place, and every other character is kept |
| SlotCounter.FormatSlotIdempotent | components/lottery/slotCounter/LotterySlotCounter.tsx:10 | the display holds no `-`, and formatting it again changes nothing |
| SlotCounter.FormatSlotNoHyphen | components/lottery/slotCounter/LotterySlotCounter.tsx:10 | a string without hyphens is shown as it is |
| SlotCounter.Displayed | components/lottery/slotCounter/LotterySlotCounter.tsx:7-12 | the shown value has the prop's length and, once the effect has run, no hyphen |
| SlotCounter.DisplayedBeforeEffect | components/lottery/slotCounter/LotterySlotCounter.tsx:7-12 | the first render shows the raw prop; it matches the formatted value iff the prop has no hyphen |

## Left out

- The WebSocket transport, `JSON.parse`, the `onerror` handler (it only logs), `console` output and the timer durations (25 s ping, 5 s reconnect).
  - Browser events are the methods of `VoteSocket.SocketEffect`.
  - A message is reduced to the id it carries, or to "did not parse".
  - A parsed object without `voting_item_id` is an id that no item has, so it only re-sorts the list.
  - A message that parses to `null` is not modelled. On a non-empty list it makes `message.voting_item_id` (line 151) throw inside the state updater, which React runs outside the handler's `try`.
  - `OnClosing` stands for the browser starting a close handshake on an open socket.
- VoteSocket.SocketEffect.OnMessage, OnOpen, OnClose: each requires the socket state in which the browser delivers that event (open for a message, connecting for open, not yet closed for close). Events that cannot arrive are not modelled.
- Re-running the socket effect when `smsNumber` changes. Each run is a fresh `SocketEffect` object; the run it replaces gets `Teardown`.
- The React hook lifecycle and state batching.
  - The mount effect's call of `winnersCountHandle` (ParticipantsList.tsx lines 64-66) always sees the initial empty list, so `winnersCount` stays 0. The model proves what the handler computes for any list, not when it is called.
  - `setWinnersCount` is called on every match inside the loop. The model keeps only the last value written.
- The dead `!prevVotingItems` branch (lines 147 and 161): the state is always an array.
- `votes_percents` is a plain integer that is only compared with 100. It is never recomputed on a live increment.
- Vote counts are modelled as unbounded integers. From 2^53 on, the source's `+ 1` (and `+ 10000` near it) rounds, and this is not modelled.
- VoteTally.HandleMessage, VoteTally.AddVotes: the `map` and the in-place `sort` on its fresh copy are modelled on values, as a function on sequences with a stable insertion sort. The array the engine sorts is never shared, so no aliasing is lost.
- Display-only fields of an item (title, photo, url, vote code) and the card markup.
- The framer-motion animation itself: delays, durations and easing.
- RollingCounter.ParseNumbers: requires a string of digits and hyphens. `parseInt` of any other character yields NaN, which is not modelled.
- RollingCounter.MarkStopped: an index beyond the array leaves holes in the JavaScript copy. They read as `undefined` (falsy), and the model stores them as `false`.
- The effect that, on a new number string, copies the previous digits and resets the stopped flags. It is covered only through `GetNumbers`' previous-value argument and `InitialStopped`.
- The authentication API call, `localStorage`, `router.replace` and the store's `setAuth`. Only the outcome is kept: the answer's `errorMessage`, or a thrown request, and the credentials signed in with.
- LotteryAuth.LotteryAuthForm.HandleSubmit: requires that the form is not loading. The disabled submit button keeps the form from being submitted while a request is in flight.
- `components/table/FitlerNumber.tsx`, the rules section, the lottery header, the general login form, the confetti and the query provider are not part of this model. They are presentation and thin wrappers over libraries.
