# Violet Rhodes chat client: a Dafny model

This project models the browser chat client of the Violet Rhodes frontend (`script.js`).
It covers the parts of the client that have state and failure modes:

- **Identity bootstrap.** The user id is kept in `localStorage["violet_user_id"]`. It is generated once, either by `crypto.randomUUID()` or by `"u_" + Date.now() + "_" + Math.random()`.
- **Memory.** `loadMemory` fetches the per-user record and falls back to a default on failure. The record selects the greeting. A successful reply updates the record, and `saveMemory` writes it back.
- **Voice selection and narration.** The client prefers a female English voice, then any English voice, then the first voice. Narration cancels whatever is speaking before it speaks.
- **Transcript rendering.** Bubbles are either added whole or typed out one character at a time. After the last character a bubble may receive one image or video.
- **Typing indicator and the turn controller.** `sendMessage` takes the trimmed input, sends the conversation, and then either renders the reply and records it in memory, or shows an apology.

Modules: `Wrappers` (Option), `JsText` (`trim`, case-insensitive search, decimal rendering),
`Identity`, `Memory`, `Voice`, `Render` and `Session`. The page's module-level variables and
DOM elements become fields of the class `Session.ChatClient`. Every method of that class is
tied to a pure specification: `SendMessage` to the function `Session.Submit`, `OnLoad` and
`LoadMemory` to `Memory.LoadedMemory` and `Memory.Greeting`. The lemmas state the turn's
properties about those functions. Browser inputs are parameters:

- the outcome of each network call (`Memory.MemoryResponse`, `Session.ChatOutcome`);
- the id generator (`Identity.IdSource`);
- the clock (`now`);
- the `Math.random()` draws of the reveal (`draw`);
- the voice list and whether speech synthesis exists.

The `/api/chat` call's status code is never inspected, so a non-success response whose body
parses is handled as a reply. For example, a body without `reply` shows the glitch
placeholder. Only a transport error or an unusable body leads to the apology. The memory
load, by contrast, does check `res.ok`; the model follows the code in both. Similarly, a memory response whose JSON body is `null` leaves
`userMemory` as `null` (`None`) rather than the default record.

## Model

| member | source | states |
|---|---|---|
| JsText.Trim | script.js:174 | The trimmed input is empty iff the input is all whitespace (the full ECMAScript whitespace and line-terminator set). Otherwise it is the slice between the leading and trailing whitespace, and it starts and ends with a non-whitespace character. |
| JsText.ContainsIsSubstring | script.js:101-102 | The left-to-right search succeeds iff the pattern occurs at some position. |
| JsText.ContainsIgnoreCase | script.js:101-102 | `/p/i.test(s)` for a lower-case ASCII pattern holds iff `p` occurs in `s` with A-Z folded to a-z. |
| JsText.DecimalDigits | script.js:7 | The decimal rendering of `Date.now()` is non-empty, all digits, and has no leading zero unless the value is 0. Read back as a decimal number (`DigitsValue`), it is exactly the timestamp. |
| Identity.GeneratedId | script.js:7 | A generated id is never empty. The fallback id starts with `u_`. |
| Identity.Bootstrap | script.js:5-9 | The id chosen and the storage entry left behind. Its properties are stated by `StoredIdIsKept`, `MissingIdIsGeneratedAndStored`, `BootstrapIdNonEmpty` and `SecondBootstrapReturnsSameId`. |
| Identity.StoredIdIsKept | script.js:5-6 | A truthy stored id is returned unchanged and storage is not written. |
| Identity.MissingIdIsGeneratedAndStored | script.js:6-8 | With no truthy stored id, the generated id is returned and stored. |
| Identity.BootstrapIdNonEmpty | script.js:5-9 | The bootstrapped id is never empty. |
| Identity.SecondBootstrapReturnsSameId | script.js:5-9 | A second bootstrap on the storage the first left returns the identical id and writes nothing, whatever the generator yields. |
| Identity.UserIdStore.GetOrCreateUserId | script.js:5-9 | The returned id and the new storage entry are those of `Bootstrap`. A truthy stored entry is returned and left untouched. |
| Memory.IsOk | script.js:41 | `res.ok`: a status from 200 to 299. `LoadedMemory` and `FailedLoadGreetsGenerically` use it. |
| Memory.LoadFailed | script.js:41-49 | The loads that end in the `catch` block: a transport error, a non-ok status, or an unparseable body. `LoadedMemory` states that each of them yields the default record. |
| Memory.LoadedMemory | script.js:38-50 | A transport error, non-ok status or unparseable body yields the default record. An ok record body yields that record. A `null` body yields no record. There is no error outcome. |
| Memory.Greeting | script.js:24-27 | The greeting chosen after the load. Its properties are stated by `GreetingRecallsLastMessage`, `FailedLoadGreetsGenerically` and `RecordedReplyIsRecalled`. |
| Memory.GreetingRecallsLastMessage | script.js:24-27 | The memory-aware greeting appears iff there is a record with a non-empty `lastMessage`, and it quotes that message verbatim. Otherwise the greeting is the generic opener. |
| Memory.FailedLoadGreetsGenerically | script.js:24-27 | After a failed load the greeting is the generic opener. |
| Memory.RecordReply | script.js:200-204 | The updated record has `lastInteraction = now` and `lastMessage = reply`. It keeps the old `userProfile`, or has the default empty profile when there was no record. |
| Memory.RecordedReplyIsRecalled | script.js:24-27 | When the record written after a reply is loaded back, the greeting quotes that reply. |
| Voice.IsEnglish | script.js:102 | The test `/en/i.test(v.lang)`. By `ContainsIgnoreCase`, it holds iff `en` occurs in the ASCII-lower-cased language tag. |
| Voice.IsPreferred | script.js:101 | The test `/female/i.test(v.name) && /en/i.test(v.lang)`. By `ContainsIgnoreCase`, it holds iff `female` occurs in the lower-cased name and the voice is English. |
| Voice.FindFirst | script.js:101-102 | `find` returns the index of the first voice satisfying the test, or nothing when no voice does. |
| Voice.SelectVoice | script.js:99-104 | The first female English voice if any. Else the first English voice. Else `voices[0]`. Nothing only for an empty list. The result is always an element of the list. |
| Voice.FemaleEnglishVoiceIsPreferred | script.js:101 | A US-English voice named "Samantha Female" is chosen over a German voice before it and a British voice after it. |
| Voice.EnglishVoiceIsNextBest | script.js:102 | Without a female English voice, the British voice after a German one is chosen. |
| Voice.FirstVoiceIsLastResort | script.js:103 | With only German voices, the first one is chosen. |
| Voice.Narrator.PlayVoice | script.js:107-119 | Without speech synthesis nothing changes. Otherwise the queue becomes exactly the one new utterance of the text with the selected voice. |
| Render.MediaElements | script.js:77-93 | At most one element. An element exists iff media is present with a truthy `src` and `type` "image" or "video". Its kind follows `type` and its source is `src`. |
| Render.AttachMedia | script.js:77-96 | The bubble keeps its sender, text and button. Its children grow by exactly the media elements, at most one. |
| Render.StepDelay | script.js:143-154 | Each reveal step waits a delay in [15, 40). |
| Session.ReplyText | script.js:193 | The reply text is `reply` when non-empty, else the glitch placeholder. It is never empty. |
| Session.Submit | script.js:173-212 | The settled state after one `sendMessage()`. Its properties are stated by `BlankInputChangesNothing`, `SubmissionSendsUserEntry`, `SuccessfulTurn`, `FailedTurn` and `ReplyIsRecalledNextSession`. `ChatClient.SendMessage` is proved to reach it. |
| Session.BlankInputChangesNothing | script.js:174-175 | Whitespace-only input leaves the whole session unchanged: no bubble, no entry, no indicator change, no request. |
| Session.SubmissionSendsUserEntry | script.js:177-188 | A non-blank submission shows the trimmed text as a user bubble and clears the input. It sends one request whose messages end with the user entry, and the turn ends with the indicator hidden. |
| Session.SuccessfulTurn | script.js:177-205 | The conversation grows by exactly the user entry and then the assistant entry. The transcript gains the user bubble and the reply bubble. Memory records the reply and `now` and keeps the profile. One memory write is sent. |
| Session.FailedTurn | script.js:207-211 | The conversation keeps the user entry only and memory is unchanged. No write is sent. Exactly one apology bubble follows the user bubble. Status is "online ●". |
| Session.ReplyIsRecalledNextSession | script.js:200-205 | The memory written after a successful turn, once loaded back, makes the next greeting quote the reply. |
| Session.ChatClient.constructor | script.js:11-12 | An empty conversation, no memory (`null`), an empty transcript and input, and no requests. The indicator and status are as the page markup gives them. |
| Session.ChatClient.LoadMemory | script.js:38-50 | `userMemory` becomes `LoadedMemory(response)` and is returned. A failed load gives the default record. |
| Session.ChatClient.OnLoad | script.js:21-30 | Memory is loaded, then one static greeting bubble `Greeting(userMemory)` is appended. |
| Session.ChatClient.SaveMemory | script.js:53-64 | Without a record nothing is sent. Otherwise exactly one write of the whole record is sent. |
| Session.ChatClient.AddMessage | script.js:67-74 | The transcript gains one complete bubble without a voice button. Its position is returned. |
| Session.ChatClient.AddMediaToMessage | script.js:77-96 | Only the given bubble changes, to `AttachMedia` of itself. |
| Session.ChatClient.TypeOutMessage | script.js:122-159 | One new bubble with the full text. It has a voice button iff the sender is "violet", and media is attached after the last character. The `k`-th wait is `StepDelay(draw(k))`, which lies in [15, 40). There are exactly `|fullText|` waits, and `elapsed` is their sum, so it lies in [15n, 40n). The trace `frames` is the strictly growing prefixes `fullText[..k]`. That the bubble held each of them in turn is the loop invariant of `TypeChain` (`frames[i] == transcript[b].text`), not a postcondition. |
| Session.ChatClient.TypeChain | script.js:142-156 | Bubble `b` goes from the empty span to `fullText`, and nothing else changes. It records one frame per step, equal to `fullText[..k]`, and one wait per character, equal to `StepDelay(draw(k))`, with `elapsed` their sum. |
| Session.ChatClient.TypeNext | script.js:151 | Only bubble `b` changes, and its span gains the one character at its end. |
| Render.SumOfStepDelays | script.js:143-155 | `n` waits, each in [15, 40), total between 15n and 40n, strictly below 40n when n > 0. |
| Render.PrefixTraceGrows | script.js:146-152 | A trace whose `k`-th text is `text[..k]` grows strictly (proper prefix) from each step to every later one. |
| Session.ChatClient.ShowTyping | script.js:162-165 | The indicator is shown and the status is "typing...". |
| Session.ChatClient.HideTyping | script.js:167-170 | The indicator is hidden and the status is "online ●". |
| Session.ChatClient.ReceiveReply | script.js:191-205 | The indicator is hidden, the reply bubble is typed out, and the assistant entry is appended. Memory becomes `RecordReply(old memory, reply text, now)` and is written once. |
| Session.ChatClient.ReceiveFailure | script.js:207-211 | The indicator is hidden and one apology bubble is appended. |
| Session.ChatClient.SendMessage | script.js:173-212 | The new session state is `Submit(old state, userId, outcome, now)`, whose properties are the lemmas above. |

## Left out

- Network calls are left out: `fetch`, JSON parsing, URL encoding and headers. Each call's result is an input datatype, and a JSON body of a shape other than the ones modelled is out. Examples are a primitive body, or non-string `reply`, `type` or `src` fields. An absent string field is held as "".
- Requests are recorded in the `chatRequests` and `memoryWrites` logs. Their delivery, server-side storage and last-write-wins are out, because they belong to the backend.
- DOM details are left out: element creation, class names, scrolling and event-listener wiring. A bubble is `(sender, text, media children, voice button)`.
- The `voiceschanged` handler is left out. It calls `getVioletVoice()` and discards the result, so it has no effect on any state.
- Real timers are left out. The `setTimeout` chain becomes a loop, and `Math.random()` draws are a parameter. Floating-point arithmetic is modelled over the reals.
- `crypto.randomUUID`, `Date.now()` and `Math.random()` are parameters. The textual rendering of a `Math.random()` float is an opaque string. Exceptions from a missing `crypto` or unavailable storage are out.
- Speech rate 1.0 and pitch 1.1 are floats and are left out. So is the engine's playback itself: only its queue is modelled.
- Concurrency is left out. Turns are strictly sequential, and a submission before the `load` handler has finished is not modelled. Overlapping `sendMessage` calls, out-of-order replies and typed reveals interleaved with later turns are also out.
- The source pushes the assistant entry and updates memory after the first revealed character and before the rest. The model finishes the reveal first. The two touch disjoint state, so the settled state is the same.
- Strings are sequences of Unicode scalar values. JavaScript indexes UTF-16 code units, so a character outside the Basic Multilingual Plane is revealed in two steps by the source and in one by the model. The final text is the same.
- The initial state of the typing indicator and status label comes from page markup that is not part of this model. They are constructor parameters.
- `console` logging is left out.
- Session.ChatClient.SendMessage: states the settled state after the turn. The intermediate awaiting-reply state (indicator shown, status "typing...", request issued) is established inside the method, by `ShowTyping`, and is not part of its postcondition.
- Session.ChatClient.TypeOutMessage: the postconditions give the trace of texts and the waits, but not that the bubble displayed each text of the trace in turn. Only the final bubble is part of the state after the call, so that fact is carried by the loop invariant of `TypeChain`.
