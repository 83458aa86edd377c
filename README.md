# Telegram mention bot: a verified model

This project models the core of `bot_telegram.py`, a Telegram bot that mentions every member
of a group (`/all`, `/allbug`, `/allerror`) or only its administrators (`/admins`), and keeps
in a Supabase table the users who registered to be mentioned (`/register`, `/unregister`).
The model covers the following parts:

- **Sanitizers** (`sanitize.dfy`): `escape_markdown`, `safe_markdown_text`,
  `clean_name_for_mention`, `clean_text_for_telegram` and `validate_markdown_text`.
  - `safe_markdown_text`, `clean_name_for_mention` and `clean_text_for_telegram` are written
    the way the bot computes them: a comprehension that drops control characters, then one
    `str.replace` per character of a fixed list. Each is proved equal to a one-pass
    reference definition, and the promised properties are derived from that reference.
  - `escape_markdown` is the replace loop alone, with no comprehension. It is proved equal
    to a one-pass backslash escape, which has an unescaping inverse.
  - `validate_markdown_text` is a predicate made of `in` tests, as the bot writes it, with no
    replace loop and no reference definition. It is related to the other sanitizers
    instead: it accepts their outputs exactly when they are non-empty.
- **Mention lists** (`mentions.dfy`).
  - The loop that `/all`, `/allbug` and `/allerror` share builds the mention tokens and the
    set of keys already mentioned. It runs first over the administrators, then over the
    registered ids.
  - `create_safe_mention_text` puts the tokens five to a line.
  - The administrator loop of `/admins`.
- **Sending with retries** (`transport.dfy`).
  - `safe_send_message` and `safe_reply_to`, including the plain-text fallback after a
    Markdown parse error.
  - `clear_webhook`.
  - How each network call ends is an input `env(k)`. Waits are recorded as a list of delays.
- **Supervisor** (`supervisor.dfy`): `start_bot_with_retry` as a trace of actions (sleep,
  clear the webhook, poll, connectivity check, forced clean-up). How each polling attempt
  ends is an input.
- **Registry** (`registry.dfy`).
  - The two Supabase tables become a map and an event log.
  - The in-memory set `registered_users` is a field of the `Registrations` class.
  - The class models `load_registered_users`, `add_registered_user`,
    `remove_registered_user`, `log_user_action`, and the handlers `/register` and
    `/unregister`.
  - Which database call raises, if any, is an input.

`strings.dfy` holds the shared helpers:
- `Option`;
- Python truthiness (`Truthy`: present and non-empty);
- how an f-string shows an optional value (`Show`: `None` shows as "None");
- `min`, powers of two, integer formatting and `' '.join`;
- the whitespace that `str.split()` splits on: the 29 code points for which Python 3's
  `str.isspace()` is true.

Where the code and its comments or documentation differ, the model follows the code:
- `safe_markdown_text` returns "Usuario" only for an empty input. A text made only of
  control characters gives "" (`Sanitize.SafeMarkdownSpec`).
- In `clear_webhook`, a status 409 waits 5 s even on the last attempt. A status other than
  200 or 409 retries at once, with no wait.
- The Markdown fallback of `safe_send_message` happens in every iteration. A parse error
  followed by a network failure of the plain send retries the whole iteration, Markdown
  first.
- In `start_bot_with_retry`, the conflict wait grows with the attempt number, not with the
  number of conflicts so far (`Supervisor.ConflictDelayNotReset`). The last
  `except Exception` clause can never run, because the first `except Exception` already
  catches every exception.
- The registry loop builds the name of a member without a username with `escape_markdown`:
  - a member with no first name shows as "[None](tg://user?id=N)";
  - a member with no first name who has a last name makes the string concatenation raise,
    so the `except` skips that member (`Mentions.RegistryName`).
- A `/register` from an id already in the in-memory set does not update the stored profile
  (`Registry.RegisterKeepsStaleProfile`).
- `remove_registered_user` reports success for an id the table does not hold.

## Model

| member | source | states |
|---|---|---|
| Sanitize.EscapeMarkdown | bot_telegram.py:229-238 | definition: an empty text is returned as it is, otherwise the 18 replaces run in the order of the list; its meaning is stated by `EscapeMarkdownIsEscaped` and `EscapeMarkdownSpec` |
| Sanitize.SafeMarkdownText | bot_telegram.py:240-260 | definition: "Usuario" for an empty input, otherwise the control filter, the 18 escaping replaces and the cut to 47 characters plus "..." beyond 50; its properties are stated by `SafeMarkdownSpec` and `SafeMarkdownRoundTrip` |
| Sanitize.CleanNameForMention | bot_telegram.py:262-290 | definition: "Usuario" for an empty name, otherwise the control filter, the 18 deleting replaces, the whitespace collapse, "Usuario" when blank and the cut to 17 characters plus "..." beyond 20; its properties are stated by `CleanNameShape`, `CleanNameSafe` and `CleanNameIdempotent` |
| Sanitize.CleanTextForTelegram | bot_telegram.py:292-308 | definition: "" for an empty text, otherwise the control filter and the 17 deleting replaces; its properties are stated by `CleanTextIsKeep`, `CleanTextSpec` and `CleanTextIdempotent` |
| Sanitize.ValidateMarkdownText | bot_telegram.py:329-353 | definition: a non-empty text with no doubled pattern of the first list, in which every character of the second list that occurs also occurs right after a backslash; related to the sanitizers by `ValidateCleanText`, `ValidateEscaped` and `ValidateCleanName` |
| Sanitize.EscapeMarkdownIsEscaped | bot_telegram.py:229-238 | the replace loop over the 18 characters equals escaping each of them with a backslash in one pass |
| Sanitize.EscapeMarkdownSpec | bot_telegram.py:229-238 | an empty text is returned unchanged; the result grows by one backslash per special character; every special character in the result follows a backslash; unescaping gives the input back |
| Sanitize.EscapeLoopEscapes | bot_telegram.py:236-237 | replacing the characters one after another never re-escapes an earlier escape, because the backslash is not in the list and the list has no repeats |
| Sanitize.UnescapeEscaped | bot_telegram.py:236-237 | removing the inserted backslashes undoes the escape, even when the text already held backslashes |
| Sanitize.EscapedPreceded | bot_telegram.py:236-237 | in an escaped text every escaped character sits right after a backslash |
| Sanitize.EscapedLength | bot_telegram.py:236-237 | escaping adds exactly one character per escaped character |
| Sanitize.KeepFilters | bot_telegram.py:249 | the control-character filter keeps, in order, exactly the printable characters outside the deleted set, and every such character survives |
| Sanitize.KeptChars | bot_telegram.py:249 | every kept character is printable and outside the deleted set |
| Sanitize.KeepKeep | bot_telegram.py:249 | filtering twice is filtering once by the union of the deleted sets |
| Sanitize.DeleteLoopKeeps | bot_telegram.py:276-277 | the loop of `replace(c, '')` over a list deletes exactly the characters of the list |
| Sanitize.ReplaceDeletes | bot_telegram.py:276-277 | one `replace(c, '')` on a filtered text filters c out as well |
| Sanitize.SafeMarkdownSpec | bot_telegram.py:240-260 | an empty input gives "Usuario"; otherwise the result is the escaped printable text cut to 47 characters plus "..." when longer than 50; it is never longer than 50; it is empty exactly when the input is non-empty but holds only control characters |
| Sanitize.SafeMarkdownRoundTrip | bot_telegram.py:240-260 | when nothing is cut off, unescaping the result gives back the printable characters of the input |
| Sanitize.CleanNameShape | bot_telegram.py:262-290 | the result is the collapsed printable text without the 18 deleted characters, or "Usuario" when that is blank, truncated to 20 |
| Sanitize.CleanNameSafe | bot_telegram.py:262-290 | the result is 1 to 20 characters long, holds no control or deleted character, and has no leading, trailing or repeated whitespace; an empty name gives "Usuario" |
| Sanitize.CleanNameIdempotent | bot_telegram.py:262-290 | cleaning a cleaned name changes nothing |
| Sanitize.CleanNameOfPlain | bot_telegram.py:262-290 | a name whose kept characters are 1 to 20 letters and digits cleans to exactly those |
| Sanitize.CleanNamePlain | bot_telegram.py:262-290 | 1 to 20 letters and digits pass unchanged |
| Sanitize.CleanNameDropsUnderscore | bot_telegram.py:275-277 | the underscore of a username is deleted: "a_b" and "ab" clean to the same "ab" |
| Sanitize.DefaultNameSafe | bot_telegram.py:282-284 | the fallback "Usuario" is itself a clean, collapsed name |
| Sanitize.TruncatedNameSafe | bot_telegram.py:286-288 | cutting a clean collapsed name to 17 characters and adding "..." keeps it clean and collapsed |
| Sanitize.CollapseIsCollapsed | bot_telegram.py:280 | `' '.join(s.split())` leaves no leading, trailing or repeated whitespace and only plain spaces |
| Sanitize.CollapseKeepsText | bot_telegram.py:280 | collapsing keeps the non-whitespace characters of the input, in order |
| Sanitize.CollapsedFixpoint | bot_telegram.py:280 | a text that is already collapsed is left as it is |
| Sanitize.CleanTextIsKeep | bot_telegram.py:292-308 | `clean_text_for_telegram` keeps exactly the printable characters outside its 17-character list |
| Sanitize.CleanTextSpec | bot_telegram.py:292-308 | an empty text gives ""; the result is a subsequence of the input with no control or markdown character, and every other character of the input survives |
| Sanitize.CleanTextIdempotent | bot_telegram.py:292-308 | cleaning twice is cleaning once |
| Sanitize.ValidateListsNest | bot_telegram.py:335-345 | the doubled patterns are among the single characters checked, and both lists are deleted by the cleaners and escaped by `escape_markdown` |
| Sanitize.ValidateCleanText | bot_telegram.py:329-353 | text cleaned by `clean_text_for_telegram` passes validation exactly when it is not empty |
| Sanitize.ValidateEscaped | bot_telegram.py:329-353 | text escaped by `escape_markdown` passes validation exactly when it is not empty |
| Sanitize.ValidateCleanName | bot_telegram.py:329-353 | a name from `clean_name_for_mention` always passes validation |
| Mentions.AdminName | bot_telegram.py:588-590 | definition: the cleaned first name or "Usuario", then a space and the cleaned last name when there is one |
| Mentions.AdminCandidate | bot_telegram.py:579-592 | definition: nothing for a bot; "@" and the cleaned username as key and token when there is a username; otherwise the key `user_<id>` and a link to the id; its properties are stated by `AdminsWithoutBots` and `SameKeyOnce` |
| Mentions.RegistryName | bot_telegram.py:607-609 | definition: the first name escaped by `escape_markdown`, "None" when there is no first name, plus a space and the escaped last name when there is one; no name when a missing first name meets a last name, where the concatenation raises |
| Mentions.RegistryCandidate | bot_telegram.py:597-614 | definition: nothing when the lookup raised or the status is not a membership; the username candidate when there is a username; otherwise the key and link of the registered id, or nothing when building the name raised; its properties are stated by `RegistryCandidateWhen` and `RegistryMembersOnly` |
| Mentions.Offer | bot_telegram.py:582-584 | definition: one loop step appends the token and records the key when the key is new, and otherwise does nothing; its properties are stated by `OfferStep` and `OfferWellKeyed` |
| Mentions.Fold | bot_telegram.py:578-614 | definition: the loop steps over a list of offers, in order; its properties are stated by `FoldWellKeyed`, `FoldExtends`, `FoldKeys`, `FoldProvenance` and `FoldOrder` |
| Mentions.MentionPlan | bot_telegram.py:574-614 | definition: the administrator pass then the registry pass, from no mentions and no keys; its properties are stated by `MentionPlanKeys`, `AdminsFirst` and `AdminAndRegisteredOnce` |
| Mentions.Tokens | bot_telegram.py:578-614 | the `mentions` list holds one token per emitted mention, in the same order |
| Mentions.RunPass | bot_telegram.py:578-592 | one pass of the loop leaves `mentions` and `mentioned_users` as the reference fold over the offered candidates says |
| Mentions.BuildMentions | bot_telegram.py:574-614 | the administrator loop then the registry loop produce the tokens and key set of the reference plan |
| Mentions.OfferStep | bot_telegram.py:582-584 | one offer appends the token exactly when its key was not recorded, and always records the key |
| Mentions.OfferWellKeyed | bot_telegram.py:582-584 | one offer keeps the keys distinct and the key set equal to the emitted keys |
| Mentions.FoldWellKeyed | bot_telegram.py:578-614 | a pass never emits two mentions with the same key, and records exactly the keys it emitted |
| Mentions.FoldExtends | bot_telegram.py:578-614 | a pass only appends to the mentions and only adds to the key set |
| Mentions.FoldKeys | bot_telegram.py:578-614 | after a pass the key set is the starting keys plus the key of every offered candidate, skipped ones included |
| Mentions.FoldProvenance | bot_telegram.py:578-614 | every mention a pass emits is one of the candidates it was offered |
| Mentions.FoldOrder | bot_telegram.py:578-614 | the mentions a pass emits are its offered candidates in order, some left out |
| Mentions.MentionPlanKeys | bot_telegram.py:574-614 | no two mentions share a key; the key set is the administrators' and registered members' keys |
| Mentions.AdminsFirst | bot_telegram.py:577-614 | the administrators' mentions come first, in administrator order, then the registered members', in registry order |
| Mentions.AdminsWithoutBots | bot_telegram.py:578-592 | every administrator mention comes from a human administrator; a bot is never offered; every human administrator's key is recorded |
| Mentions.RegistryMembersOnly | bot_telegram.py:594-614 | the registry loop mentions only ids whose lookup succeeded with status member, administrator or creator; a failed lookup skips that id and the loop continues |
| Mentions.RegistryCandidateWhen | bot_telegram.py:597-611 | a registered id is offered exactly when its lookup succeeded with a membership status and a username or a buildable name; without a username the link uses the registered id |
| Mentions.AdminAndRegisteredOnce | bot_telegram.py:594-606 | a registered member with the key of a human administrator is mentioned once, by the administrator loop |
| Mentions.SameKeyOnce | bot_telegram.py:580-584 | of two administrators with the same key only the first is mentioned, even for two different raw usernames |
| Mentions.CreateSafeMentionText | bot_telegram.py:310-327 | the result is the header followed by the lines of five tokens; no tokens leaves the header unchanged |
| Mentions.LinesCount | bot_telegram.py:319-321 | there are ceil(n/5) lines |
| Mentions.LinesLayout | bot_telegram.py:319-321 | line k is tokens 5k to 5k+4 (fewer on the last), joined by spaces and ended by a newline |
| Mentions.LinesCoverTokens | bot_telegram.py:319-321 | joining the groups of the lines gives the token list back, in order |
| Mentions.MentionAll | bot_telegram.py:616-621 | with mentions, the header and lines go to the chat in Markdown; with none, the "no members" reply |
| Mentions.AdminMentions | bot_telegram.py:793-801 | the `/admins` loop emits one token per human administrator, in order, with no key set |
| Mentions.MentionAdmins | bot_telegram.py:803-807 | with mentions, the header and tokens joined by spaces go to the chat; with none, the "no administrators" reply |
| Mentions.AdminMentionsCount | bot_telegram.py:793-801 | `/admins` mentions exactly as many users as there are human administrators |
| Mentions.AllAdminsWithinAdmins | bot_telegram.py:578-592 | the administrator part of `/all` is the `/admins` list with repeated keys left out |
| Mentions.AdminsRepeat | bot_telegram.py:793-801 | `/admins` mentions an administrator listed twice twice, while `/all` mentions them once |
| Transport.Advance | bot_telegram.py:358-390 | definition: one iteration returns True on delivery, waits min(2^attempt, 30) s and goes on after a network failure that is not the last, and returns False otherwise; its invariant is `AdvanceSettled` |
| Transport.SendIterate | bot_telegram.py:358-390 | definition: the state after n iterations, from no calls and no waits; its properties are stated by `SendShape`, `SendOutcomes`, `SendCalls` and `DoneStays` |
| Transport.TryOnce | bot_telegram.py:359-377 | an iteration makes one call in the requested mode, plus the plain-text call of the cleaned text exactly when a Markdown call hit a parse error; it ends with the outcome of its last call |
| Transport.TrySend | bot_telegram.py:359-377 | the body of one iteration makes the calls and gets the outcome that `TryOnce` describes |
| Transport.SafeDeliver | bot_telegram.py:356-426 | the loop of `safe_send_message` / `safe_reply_to` returns the result, calls and waits of the reference iteration run for `max_retries` rounds |
| Transport.DoneStays | bot_telegram.py:364-389 | once the loop has returned, later iterations change nothing |
| Transport.SendNoRetries | bot_telegram.py:358-390 | with `max_retries` of 0 or less nothing is sent, nothing is waited and the result is False |
| Transport.SendShape | bot_telegram.py:378-386 | rounds never exceed the iterations; a loop still running has waited once per round; a finished loop has waited one time fewer than its rounds; wait j is min(2^j, 30); each round makes one or two calls |
| Transport.SendBackoffMonotone | bot_telegram.py:381 | the backoff never decreases from one iteration to the next |
| Transport.SendDelays | bot_telegram.py:378-386 | a call with positive `max_retries` always returns, after at most `max_retries` rounds; waits are min(2^j, 30), at most 30 and non-decreasing |
| Transport.IterateSettled | bot_telegram.py:358-390 | after any number of iterations the state satisfies the outcome invariant of `SendOutcomes` |
| Transport.AdvanceSettled | bot_telegram.py:358-390 | one iteration preserves that invariant |
| Transport.SendOutcomes | bot_telegram.py:358-390 | success implies the loop returned; a returned loop succeeded exactly when its last call was delivered; every earlier call was a network failure or the Markdown call that fell back |
| Transport.SendCalls | bot_telegram.py:361-377 | every call sends the text in the requested mode, or is the plain fallback of the cleaned text right after a Markdown call that hit a parse error |
| Transport.SendAllNetwork | bot_telegram.py:378-386 | when every call fails on the network, the loop makes one call per iteration, never succeeds, and returns exactly in the last iteration |
| Transport.FallbackEachIteration | bot_telegram.py:365-372 | a parse error, a network failure of the fallback, then a parse error and a delivered fallback give calls [md, plain, md, plain], waits [1] and success |
| Transport.SendCallCount | bot_telegram.py:358-377 | n iterations make at most 2n calls |
| Transport.SendReadsOwnCalls | bot_telegram.py:358-390 | n iterations depend only on the outcomes of the first 2n calls, the most they can make |
| Transport.AttemptWait | bot_telegram.py:210-224 | a failed webhook attempt waits 5 s after a 409, min(2^a, 10) after a connection error, 3 s after another error (except on the last attempt), and nothing after another status |
| Transport.ClearAttempt | bot_telegram.py:205-224 | definition: attempt a of `clear_webhook`; `ClearFailureWait` states each of its waits |
| Transport.ClearIterate | bot_telegram.py:205-224 | definition: the state after n attempts, from no waits; its properties are stated by `ClearOkIff`, `ClearWaits` and `ClearedStays` |
| Transport.ClearWebhook | bot_telegram.py:185-227 | the loop of `clear_webhook` returns the result and waits of the reference five-attempt run |
| Transport.ClearAttemptAppends | bot_telegram.py:205-224 | an attempt only appends to the waits |
| Transport.ClearedStays | bot_telegram.py:205-209 | once cleared, later attempts change nothing |
| Transport.ClearOkIff | bot_telegram.py:205-209 | the webhook is cleared exactly when some attempt got status 200 |
| Transport.ClearWaits | bot_telegram.py:205-224 | there is at most one wait per attempt, each between 1 and 10 s, and a cleared run ends with the 2 s wait |
| Transport.WaitBounds | bot_telegram.py:205-224 | every wait of a single attempt is between 1 and 10 s |
| Transport.ClearWebhookSpec | bot_telegram.py:185-227 | over its five attempts `clear_webhook` succeeds exactly when some attempt got 200, waits at most five times, 1 to 10 s each, and ends a success with the 2 s wait |
| Transport.ClearFailureWait | bot_telegram.py:210-224 | after attempts that did not succeed, attempt a appends exactly 5 s on a 409, min(2^a, 10) s on a connection error and 3 s on any other exception, the last two only when another attempt follows; another status appends nothing |
| Transport.ClearConflictLast | bot_telegram.py:210-214 | with no 200 and a 409 on the last attempt, the result is False and the last wait is 5 s |
| Transport.ClearReadsOwnAnswers | bot_telegram.py:185-227 | n attempts depend only on the answers of those n attempts |
| Supervisor.ConflictDelay | bot_telegram.py:1100 | definition: min(30 * 2^min(a, 4), 300); its values are stated by `ConflictDelays` |
| Supervisor.Prelude | bot_telegram.py:1060-1078 | definition: attempts after the first clear the webhook and wait 10 s, then every attempt polls |
| Supervisor.Breaks | bot_telegram.py:1080-1121 | definition: an interrupt breaks, and so does any failure of the last attempt |
| Supervisor.Recovery | bot_telegram.py:1080-1117 | definition: 30 s and a connectivity check after a connection error, the conflict wait and a forced clean-up after a conflict, 30 s after another error, and nothing when the polling returned or the loop breaks; `RecoveryPolls` states that it holds no poll |
| Supervisor.Attempt | bot_telegram.py:1060-1130 | definition: a stopped run stays as it is; otherwise the prelude and the recovery are appended; its invariants are `AttemptShaped` and `AttemptClears` |
| Supervisor.Supervise | bot_telegram.py:1049-1130 | definition: the start-up, then n attempts; its properties are stated by `SuperviseShaped`, `StartBotShape`, `PollAfterClear` and `StartupPrefix` |
| Supervisor.StartBotWithRetry | bot_telegram.py:1044-1130 | the supervisor's actions are those of the reference run over five attempts |
| Supervisor.AfterPoll | bot_telegram.py:1080-1130 | after a poll, the recovery actions and whether the loop breaks are those the except clauses prescribe |
| Supervisor.StoppedStays | bot_telegram.py:1091-1130 | after a `break` no further attempt does anything |
| Supervisor.AttemptShaped | bot_telegram.py:1060-1078 | one attempt keeps the polls numbered 0, 1, 2, ... and, while running, one poll per attempt |
| Supervisor.SuperviseShaped | bot_telegram.py:1060-1078 | after n attempts the polls are attempts 0, 1, ... in order, n of them unless the loop broke, and a broken loop ends with its last poll |
| Supervisor.RecoveryPolls | bot_telegram.py:1080-1130 | no recovery action is a poll |
| Supervisor.StartBotShape | bot_telegram.py:1044-1130 | the run opens with the start-up, polls one to five times as attempts 0, 1, ... in order, and does nothing after the last poll |
| Supervisor.StartupPrefix | bot_telegram.py:1049-1056 | after any number of attempts the trace opens with the 30 s wait, a webhook clear and a 10 s wait |
| Supervisor.LastAttemptEndsWithPoll | bot_telegram.py:1060-1130 | when no attempt breaks the loop, the run ends with the poll of the fifth attempt and nothing after it |
| Supervisor.ConflictDelays | bot_telegram.py:1100 | the conflict waits are 30, 60, 120 and 240 s, never above 300, and grow with the attempt |
| Supervisor.ConflictDelayNotReset | bot_telegram.py:1096-1106 | a first conflict in attempt 1, after a poll that returned, still waits 60 s |
| Supervisor.InterruptStops | bot_telegram.py:1119-1121 | an interrupt ends the supervisor right after that attempt's poll |
| Supervisor.AttemptClears | bot_telegram.py:1062-1078 | one attempt keeps every poll right after a webhook clear and a 10 s wait |
| Supervisor.PollAfterClear | bot_telegram.py:1053-1078 | every poll comes right after a webhook clear and a 10 s wait |
| Registry.LoadRegistered | bot_telegram.py:87-95 | the loaded set is the ids of the table, or empty when the read fails |
| Registry.LoadConsistent | bot_telegram.py:87-95 | the loaded set names only ids the table holds |
| Registry.Registrations.constructor | bot_telegram.py:87-95 | the bot starts with the stored tables and the loaded set |
| Registry.Registrations.LogUserAction | bot_telegram.py:73-85 | a log row is appended unless the insert fails, whose failure is swallowed |
| Registry.Registrations.AddRegisteredUser | bot_telegram.py:97-125 | the tables change as `AddUser` says and the in-memory set is untouched |
| Registry.Registrations.RemoveRegisteredUser | bot_telegram.py:127-146 | the tables change as `RemoveUser` says and the in-memory set is untouched |
| Registry.Registrations.RegisterUser | bot_telegram.py:499-530 | the state and reply are those of `Register`, and the in-memory set stays within the table |
| Registry.Registrations.UnregisterUser | bot_telegram.py:533-551 | the state and reply are those of `Unregister`, and the in-memory set stays within the table |
| Registry.AddUser | bot_telegram.py:97-125 | definition: a failing read or write returns False and changes nothing; otherwise the row is stored and REGISTRO or ACTUALIZACION is logged unless the log insert fails; its properties are stated by `AddUserSpec`, `AddTwice` and `LogOnlyGrows` |
| Registry.RemoveUser | bot_telegram.py:127-146 | definition: a failing read or delete returns False and changes nothing; otherwise the row is deleted and ELIMINACION is logged for a row that existed unless the log insert fails; its properties are stated by `RemoveUserSpec` and `AddThenRemove` |
| Registry.AddUserSpec | bot_telegram.py:97-125 | an add fails exactly when the read or the write raises, and then changes nothing; a success stores the profile under the id, keeps every other row, and logs REGISTRO for a new id or ACTUALIZACION for a known one, unless the log insert fails |
| Registry.AddTwice | bot_telegram.py:100-119 | adding the same profile twice leaves the table as one add does, and the second add logs ACTUALIZACION |
| Registry.RemoveUserSpec | bot_telegram.py:127-146 | a remove fails exactly when the read or the delete raises; a success deletes only that row; an absent id is a success that changes nothing; ELIMINACION is logged only for a row that existed |
| Registry.AddThenRemove | bot_telegram.py:97-146 | adding a new id and removing it restores the table and logs REGISTRO then ELIMINACION with the same profile |
| Registry.LogOnlyGrows | bot_telegram.py:73-146 | neither helper erases or rewrites a log row |
| Registry.Register | bot_telegram.py:499-526 | definition: an id in the set is answered "already registered" with nothing changed; otherwise the add runs, and a success adds the id to the set and welcomes the user; its properties are stated by `RegisterOutcome`, `RegisterConsistent` and `RegisterKeepsStaleProfile` |
| Registry.Unregister | bot_telegram.py:533-547 | definition: an id not in the set is refused; otherwise the removal runs, and a success takes the id out of the set; its properties are stated by `UnregisterOutcome` and `UnregisterConsistent` |
| Registry.RegisterConsistent | bot_telegram.py:507-513 | `/register` keeps the in-memory set within the table, whatever call fails |
| Registry.UnregisterConsistent | bot_telegram.py:538-544 | `/unregister` keeps the in-memory set within the table, whatever call fails |
| Registry.RegisterOutcome | bot_telegram.py:507-526 | the id ends up in the set exactly when it was there or the add succeeded; an id already there is answered "already registered" with nothing changed; a failed add changes nothing and answers with the database error |
| Registry.RegisterKeepsStaleProfile | bot_telegram.py:507-509 | a `/register` from an id in the set leaves the tables unchanged, even with a new profile |
| Registry.UnregisterOutcome | bot_telegram.py:538-547 | the id leaves the set exactly when it was absent or the removal succeeded; an absent id is refused; a failed removal changes nothing and answers with the database error |
| Registry.RegisterThenUnregister | bot_telegram.py:499-551 | registering a new user and unregistering them, with no failure, restores the set and the table |
| Registry.WhoLine | bot_telegram.py:517-520 | definition: "Usuario: @" and the username, or "Nombre: " and the first name or "Usuario"; stated by `WhoLineName` |
| Registry.Text | bot_telegram.py:507-547 | definition: the reply text of each outcome, word for word; the welcome alone goes as plain text, as `WelcomeName` states |
| Registry.WelcomeName | bot_telegram.py:516-524 | the welcome is sent as plain text and opens with its heading and the user's name line |
| Registry.WhoLineName | bot_telegram.py:517-520 | the name line is "Usuario: @" and the username when there is one, otherwise "Nombre: " and the first name or "Usuario" |

## Left out

- The Supabase client, the Telegram API, HTTP requests, logging, clocks and sleeps are not
  modelled as I/O. Their results are inputs: the fault of a database call, the outcome of a
  send, the answer of a webhook request, how a polling ends. Sleeps are recorded as delays
  or trace actions.
- The classification of an exception by its message text is not modelled. The model takes
  "can't parse entities" or "Bad Request" as `ParseRejected`, "409" with "Conflict" as
  `Conflict`, and the listed connection errors as network failures.
- Transport.ClearWebhook: the `getWebhookInfo` request of each attempt is only logged. The
  model keeps one answer per attempt: the status of `deleteWebhook`, or the exception that
  either request raised.
- `str(text)` on a non-string argument is not modelled: every input is a string, and `None`
  or an empty string is the empty string.
- Supervisor.StartBotWithRetry: `clear_webhook` is one abstract action in the trace, and its
  own retries are modelled separately by `Transport.ClearWebhook`. The result of
  `check_network_connectivity` is only logged, so the model records the call and not its
  result. `force_cleanup_all_instances` is an action, not modelled further.
- Mentions.MentionAll: the chat type check, `get_chat_member_count`, the three header
  wordings and the outer `except` that replies with a generic error are not modelled. The
  header is a parameter. The iteration order of the `registered_users` set is an input, the
  order of the registry sequence.
- Mentions.CreateSafeMentionText: the `except` branch cannot be reached for a list of
  strings, so the model has no counterpart.
- Registry.Registrations.RegisterUser: the outer `except` of the handlers has no
  counterpart. Every call inside is guarded by its own handler, so the model has no path to
  that reply. The reply is returned, not sent; sending it is `Transport.SafeDeliver`.
- Registry.Registrations.UnregisterUser: the same as for `RegisterUser`.
- Database initialisation, backups, the other commands, the Flask health server, the
  keep-alive thread and configuration loading are outside this model.
- Concurrency is not modelled: the handler thread and the polling loop share nothing in
  the model.
