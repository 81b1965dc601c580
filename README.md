# Telegram userbot chat responder, modelled in Dafny

The bot (`main.py`) runs inside a Telegram user account. For every text or
caption message it works through these steps:

- It looks up the chat's settings. An unseen chat gets a default entry, which is saved at once.
- It deletes a message from someone else that mentions a user (`@name`).
- It answers only in chats switched on with `.chat on`, or to replies to the owner.
- To answer, it asks a primary text-generation provider and, failing that, a fallback provider, under a time limit.
- It shrinks the answer with `limit_response` to one sentence of at most 15 characters.
- When there is no answer, it replies "wkwk".

The owner commands `.chat on|off`, `.setrole <text>` and `.role` read and
change the per-chat settings. The settings are kept in a JSON file.

The model has these modules:

- `Text`: Python's `isspace`, `strip`, `lstrip`, `rstrip` and `xs[:n]`, negative `n` included.
- `Limiter`: `limit_response`. Its three regular expressions are written out as scans that follow Python's `re`:
  - the MULTILINE `^` and `$` anchors;
  - greedy `\s*`, `\s+` and `.*`, which may swallow blank lines;
  - the leftmost, non-overlapping search of `re.sub` and `re.split`.
- `LimiterExamples`: concrete runs of the limiter.
- `Json` and `Siputzx`: the client `call_siputzx`. It is a pure function of the prompt, the role and what each provider did. It returns the answer and the requests it would have sent.
- `Store`: the settings store, as a class `ChatStore`:
  - a map field from `str(chat_id)` to the chat's settings;
  - a ghost snapshot of the last value `save_data` wrote;
  - methods for `load_data`, `save_data`, `get_chat_cfg` and the three commands.
- `Pipeline`: `handle_message`, as a pure decision `Decide` and a method `HandleMessage` that also updates the store.

The model follows `main.py` in three places where one might expect otherwise:

- If `m.delete()` raises, the `except: pass` does not return. The message is then handled like any other, and a mention can still get a reply. See `Pipeline.FailedDeleteStillAnswers`.
- A primary reply with status 200 whose body is not JSON ends the call with `raw.strip() or None`. A blank body therefore gives no answer, and the fallback provider is never asked. See `Siputzx.UnparsablePrimaryIsFinal`.
- Every command calls `get_chat_cfg` before it checks its argument. An invalid command therefore still creates and saves the chat's default entry.

## Model

| member | source | states |
|---|---|---|
| `Text.Trim` | main.py:83 | `strip()`: the result has no whitespace at either end, is empty exactly when the input is all whitespace, and leaves trimmed text unchanged |
| `Text.TrimEnd` | main.py:91 | `rstrip()`: the result is a prefix of the input, only whitespace is dropped, and the result does not end in whitespace |
| `Text.PyPrefix` | main.py:88 | `xs[:n]` is a prefix of `xs`; its length is `min(n, len)` for `n >= 0`, and `len + n` clamped at 0 for negative `n` |
| `Limiter.HeadingMatch` | main.py:84 | a match of `^\s*#{1,6}\s+.*$` starts at a line start, has a `#` within the matched span, and ends at a newline or at the end of the text |
| `Limiter.BulletMatch` | main.py:85 | a match of `^\s*[-•]\s+` starts at a line start, has a bullet within the matched span, and ends before a non-whitespace character or at the end |
| `Limiter.RemoveHeadings` | main.py:84 | the heading substitution never lengthens the text, and text with no heading match is returned unchanged |
| `Limiter.RemoveBullets` | main.py:85 | the bullet substitution never lengthens the text, and text with no bullet match is returned unchanged |
| `Limiter.SplitSentences` | main.py:87 | the first piece is a prefix of the text, is non-empty for non-empty text, and text with no terminator before whitespace is one piece |
| `Limiter.SplitSentencesUnbroken` | main.py:87 | the text is cut at every break: no piece contains a terminator followed by whitespace |
| `Limiter.SplitSentencesCutsAfterTerminators` | main.py:87 | the text is cut only at breaks: every piece but the last is non-empty and ends in `.`, `!` or `?` |
| `Limiter.SplitAtFirstBreak` | main.py:87 | at the first break (a terminator followed by a whitespace run of any length and kind), the split is the text before the break followed by the split of the text after the whole whitespace run; with the no-break case of `SplitSentences`, this fixes every piece |
| `Limiter.SplitSentencesRejoins` | main.py:87-88 | where every break is a single space, joining the pieces with spaces gives back the text |
| `Limiter.SplitsAtFirstBreak` | main.py:87 | a break-free sentence ending in a terminator, then one space and more text, is the first piece |
| `Limiter.TwoSentences` | main.py:87 | such a sentence followed by break-free text splits into exactly those two pieces |
| `Limiter.Join` | main.py:88 | `" ".join` starts with its first part, gives the empty string for no parts, and returns a single part as it is |
| `Limiter.JoinCons` | main.py:88 | every later part follows the first, after exactly one space |
| `Limiter.Lead` | main.py:87-88 | keeping no sentences gives the empty string; keeping one or more of a text with no break gives the whole text |
| `Limiter.Clean` | main.py:83-85 | the text after strip, heading removal and bullet removal has no whitespace at either end |
| `Limiter.Cut` | main.py:90-91 | the final cut is a prefix of its input, is trimmed, and is at most `max_chars` long; text within `max_chars` is kept whole, and otherwise only whitespace of `short[:max_chars]` is dropped |
| `Limiter.LimitResponse` | main.py:80-92 | empty input is returned unchanged; otherwise the result has at most `max_chars` characters (when that is not negative) and no whitespace at either end |
| `Limiter.LimitIsPrefixOfLead` | main.py:87-92 | the result is a prefix of the first `max_sentences` pieces joined with spaces, or of the cleaned text when that join is empty |
| `Limiter.UnbrokenTextIsOnlyCut` | main.py:87-92 | when the cleaned text has no sentence break, the result is that text cut to `max_chars`, whatever `max_sentences` is |
| `Limiter.CleanKeepsPlainText` | main.py:83-85 | trimmed text with no heading and no bullet match comes through the clean-up unchanged |
| `Limiter.PlainTextIsOnlyCut` | main.py:83-92 | trimmed text with no heading, bullet or sentence break is only cut to `max_chars` and right-trimmed |
| `Limiter.ShortPlainTextUnchanged` | main.py:80-92 | such text that already fits in `max_chars` is returned unchanged |
| `Limiter.NoMarkupMatchesNothing` | main.py:84-87 | text without `#`, `-`, `•`, `.`, `!` or `?` matches none of the three patterns |
| `Limiter.LeadingHeadingLineIsDropped` | main.py:84-85 | a first line "# <title>" followed by a trimmed body line is removed, leaving exactly the body |
| `Limiter.LeadingBulletIsDropped` | main.py:84-85 | a line "- <item>" cleans to exactly the item |
| `Limiter.HeadingOnlyIsDropped` | main.py:84 | a text that is a single heading line "# <title>" cleans to the empty string |
| `Limiter.LimitOfNonEmptyLead` | main.py:88-91 | when the kept pieces are not blank, the reply is their join, stripped and cut; the `or text` fallback is not taken |
| `Limiter.FirstSentenceKept` | main.py:80-92 | with `max_sentences` = 1, a plain sentence ending in a terminator and followed by more text is cut down to that sentence, then to `max_chars` |
| `LimiterExamples.LongSentenceIsCut` | main.py:80-92 | "This is a very long single sentence without punctuation" with (1, 15) gives "This is a very" |
| `LimiterExamples.HeadingLineIsRemoved` | main.py:84 | "# Title\nHello world." with (1, 15) gives "Hello world." |
| `LimiterExamples.BulletRemovalExposesHeading` | main.py:84-85 | bullet removal runs after heading removal, so "- # h" cleans to "# h" |
| `LimiterExamples.TwoSentenceSplit` | main.py:87 | "Hi. Yo" splits into "Hi." and "Yo" |
| `LimiterExamples.WideBreakSplit` | main.py:87 | "A.B.  C" splits into "A.B." and "C": the two spaces form one break, and the inner "." is no break |
| `LimiterExamples.SecondSentenceIsDropped` | main.py:80-92 | with the default limits, "Hi. Yo" gives "Hi." |
| `LimiterExamples.HeadingOnlyLimit` | main.py:80-92 | a text that is only a heading line gives the empty string |
| `LimiterExamples.LimitNotIdempotent` | main.py:84-85 | `limit_response` is not idempotent: "- # h" gives "# h", and "# h" then gives "" |
| `Json.Get` | main.py:130 | `d.get(key)` is none exactly when no entry has the key |
| `Json.GetFindsFirst` | main.py:130 | when several entries could match, `d.get(key)` is the value of the first entry with the key |
| `Siputzx.NonBlank` | main.py:127 | `s.strip() or None` is none exactly for blank text; otherwise it is non-empty, trimmed and no longer than `s` |
| `Siputzx.TextOf` | main.py:131-132 | the test `isinstance(v, str) and v.strip()` holds only for a string value; the result is that string, stripped |
| `Siputzx.FirstTextValue` | main.py:137-139 | the scan of `js.values()` finds nothing exactly when no value is a non-blank string; what it finds is a valid answer |
| `Siputzx.PrimaryExtract` | main.py:129-139 | only an object yields an answer, and the answer is non-empty and trimmed |
| `Siputzx.FirstTextAt` | main.py:161-164 | the scan over the fixed key tuple finds nothing exactly when no listed key holds a non-blank string |
| `Siputzx.FallbackExtract` | main.py:155-165 | only an object yields an answer, and the answer is non-empty and trimmed |
| `Siputzx.PrimaryStep` | main.py:118-143 | when the primary provider ends the call, its answer is none or non-empty and trimmed; a 200 body that is not JSON ends it with the stripped body, and a 200 JSON body that yields an answer ends it with that answer |
| `Siputzx.FallbackStep` | main.py:146-168 | the fallback provider's answer is none or non-empty and trimmed; a 200 JSON body gives what the fallback extraction yields |
| `Siputzx.Persona` | main.py:111 | `(role or DEFAULT_ROLE).strip()` is trimmed; it is the stripped role, or the stripped default persona for an empty role |
| `Siputzx.CallSiputzx` | main.py:109-168 | a blank prompt sends no request and gives no answer; otherwise the primary provider is asked first with the stripped role and prompt; at most the fallback provider is asked after it, with the prompt alone; every answer is non-empty and trimmed |
| `Siputzx.FirstTextValueIsFirstNonBlank` | main.py:137-139 | the scan of `js.values()` returns the first non-blank string value in key order, stripped |
| `Siputzx.FirstTextAtIsFirstNonBlank` | main.py:161-164 | the scan over the key tuple returns the first non-blank string among those keys, in tuple order |
| `Siputzx.PrimaryExtractByPrecedence` | main.py:129-139 | the primary object yields the first non-blank of: `data`, then `data.content`, then every top-level value in key order |
| `Siputzx.HeadDecides` | main.py:131-132 | a string value checked first decides the answer when it is not blank; otherwise the later candidates decide |
| `Siputzx.PrimaryContentOrValues` | main.py:133-139 | without a non-blank `data` string, `data.content` and then the top-level values decide |
| `Siputzx.ContentThenKeys` | main.py:157-164 | `data.content` and then the listed keys, in order, decide the fallback answer |
| `Siputzx.FallbackExtractByPrecedence` | main.py:155-165 | the fallback object yields the first non-blank of `data.content`, `result`, `answer`, `message`, `data` |
| `Siputzx.PrimaryExtractNone` | main.py:129-139 | the primary JSON yields no answer exactly when it is not an object or all its candidates are blank |
| `Siputzx.PrimaryStepFallsThrough` | main.py:123-146 | the fallback is reached exactly when the primary request raised, got a status other than 200, or returned JSON that yields nothing |
| `Siputzx.FallbackConsultedIff` | main.py:118-168 | for a non-blank prompt, the fallback provider is asked exactly when the primary fails; its answer is then the result, and it is none when the fallback raises, gets another status or returns text that is not JSON |
| `Siputzx.UnparsablePrimaryIsFinal` | main.py:123-127 | a 200 primary body that is not JSON ends the call with the stripped body (none when blank), and the fallback is never asked |
| `Siputzx.PrimaryAnswerIsExtract` | main.py:118-139 | a non-blank prompt whose primary 200 JSON body yields an answer gets that answer, the first non-blank candidate in precedence order, from one request |
| `Siputzx.FallbackAnswerIsExtract` | main.py:146-165 | after the primary fails, a 200 JSON fallback body gives the first non-blank fallback candidate, and none for a body that is not an object |
| `Siputzx.TopLevelTextAnswers` | main.py:137-139 | a primary object with any non-blank top-level string always yields an answer |
| `Store.NatToDecimal` | main.py:71 | `str(n)` is made of decimal digits and has no leading zero |
| `Store.DecimalRoundTrip` | main.py:71 | reading back the digits of `str(n)` gives `n` |
| `Store.ChatKey` | main.py:71 | `str(chat_id)` is non-empty and starts with '-' exactly for negative ids |
| `Store.ChatKeyInjective` | main.py:70-75 | two chats with the same key are the same chat, so chats never share settings |
| `Store.RoleOrDefault` | main.py:211 | `cfg.get("role") or DEFAULT_ROLE` is never empty; it is the stored role when that is not empty, and `DEFAULT_ROLE` when it is |
| `Store.RoleReply` | main.py:211-212 | the `.role` reply is "Role:\n\n" followed by the role, or by `DEFAULT_ROLE` when the role is empty |
| `Store.WithDefault` | main.py:70-75 | `get_chat_cfg` adds the key if it is missing, with the default role and `enabled` false; every existing entry is unchanged |
| `Store.CfgOf` | main.py:53-56 | a loaded entry that is not an object has no role and is off; a non-empty role is the entry's `role` string, and the chat is on exactly when `enabled` is `true` |
| `Store.EncodeChats` | main.py:65-66 | the dumped `chats` object has one entry per chat, each the encoding of that chat's settings |
| `Store.EncodeData` | main.py:63-66 | the written file is an object whose `chats` is the dumped chats |
| `Store.CfgRoundTrip` | main.py:55-66 | an entry written by `json.dump` reads back as the same role and switch |
| `Store.DecodeChats` | main.py:56 | the loaded chats have exactly the keys of the file's `chats` object |
| `Store.ChatsRoundTrip` | main.py:51-68 | decoding the dumped `chats` object gives back the same map |
| `Store.LoadedChats` | main.py:51-61 | a missing file keeps the current chats, and an unreadable file resets them to none |
| `Store.LoadRejectsBadShape` | main.py:57-58 | a file that is not an object, or whose `chats` is not an object, leaves no chats |
| `Store.SaveLoadRoundTrip` | main.py:51-68 | loading the file `save_data` wrote restores exactly the saved chats |
| `Store.CommandArg` | main.py:187-188 | the argument after the command word is trimmed and no longer than the message |
| `Store.CommandArgOfWords` | main.py:187-188 | with the text split on its first whitespace run after the command word, the argument is the rest, stripped |
| `Store.CommandArgOfWordOnly` | main.py:187-188 | a command with nothing after its word has the empty argument |
| `Store.Switch` | main.py:188-189 | `.chat` accepts exactly the case variants of "on" (switch on) and of "off" (switch off) |
| `Store.StoredRole` | main.py:200-204 | `.setrole` stores something exactly when the stripped argument is not empty; what it stores is non-empty, at most 3000 characters and a prefix of the argument: the whole argument when it fits, and exactly its first 3000 characters when it does not |
| `Store.ChatStore.constructor` | main.py:49 | the store starts with no chats and nothing saved |
| `Store.ChatStore.SaveData` | main.py:63-68 | the saved file is the encoding of the chats in memory, which are unchanged |
| `Store.ChatStore.LoadData` | main.py:51-61 | the chats become those read from the file, after its shape check |
| `Store.ChatStore.GetChatCfg` | main.py:70-75 | an unseen chat gets the default entry, which is saved; a seen chat's entry is returned, and nothing is written |
| `Store.ChatStore.ChatCmd` | main.py:185-194 | the chat's entry is created first; "on"/"off" set `enabled`, save and reply "AKTIF"/"MATI"; anything else replies with the usage text and changes nothing more |
| `Store.ChatStore.SetRoleCmd` | main.py:197-206 | the chat's entry is created first; a non-empty argument becomes the role, cut to 3000 characters, is saved and gets "Ok."; an empty one gets the usage text |
| `Store.ChatStore.RoleCmd` | main.py:209-212 | the reply is "Role:\n\n" followed by the chat's role, or the default persona when the role is empty |
| `Pipeline.SearchMention` | main.py:41 | the search for `@\w+` finds nothing exactly when no position starts a match; otherwise it finds the leftmost one |
| `Pipeline.ShouldDelete` | main.py:222-223 | a message is to be deleted exactly when its text is non-empty, it is from someone else, and some position starts a mention |
| `Pipeline.MessageText` | main.py:222 | `(m.text or m.caption or "").strip()` is trimmed, and is empty exactly when the chosen field is all whitespace |
| `Pipeline.Generated` | main.py:244-249 | a timeout gives no answer; a finished call gives `call_siputzx`'s answer for the text and the chat's role (or `DEFAULT_ROLE`); any answer is non-empty and trimmed |
| `Pipeline.ReplyText` | main.py:251-254 | the reply is `limit_response` of the answer when there is a non-empty one, and `limit_response` of "wkwk" when the answer is missing or empty; so it is trimmed and at most `MAX_CHARS` long |
| `Pipeline.Decide` | main.py:214-255 | a message is deleted exactly when it has a chat, a mention from someone else and the delete succeeds; it is answered exactly when it has a chat and non-empty text, is not deleted, and replies to the owner or is in a chat switched on; the reply is `limit_response` of the generated answer (or "wkwk") for the chat's role, so it is trimmed and within `MAX_CHARS` |
| `Pipeline.DeletedMentionIsNotAnswered` | main.py:223-226 | a mention from someone else that is deleted gets no reply, whatever the chat's settings |
| `Pipeline.FailedDeleteStillAnswers` | main.py:223-255 | when the delete fails, an eligible message is answered, just as if it had no mention |
| `Pipeline.NewChatAnswersOnlyReplies` | main.py:239-240 | a chat with the default settings answers only replies to the owner |
| `Pipeline.NoAnswerRepliesFallback` | main.py:251-254 | with the default limits, a missing answer gives the reply "wkwk" |
| `Pipeline.TimeoutRepliesFallback` | main.py:246-254 | an eligible message whose generation timed out gets "wkwk" under the default limits |
| `Pipeline.FailedProvidersGiveNothing` | main.py:244-249 | when both providers fail, the generation has no answer |
| `Pipeline.FailedProvidersReplyFallback` | main.py:244-255 | an eligible message whose providers both fail gets "wkwk" under the default limits |
| `Pipeline.PrimaryAnswerIsGenerated` | main.py:244-247 | a primary 200 JSON body that yields an answer is what the generation returns |
| `Pipeline.PrimaryAnswerIsReplied` | main.py:244-255 | an eligible message whose primary provider's JSON yields an answer is replied to with `limit_response` of that answer |
| `Pipeline.GenerationUsesChatRole` | main.py:244-247 | the generation's answer is that of `call_siputzx` for the message text and the chat's role (or the default persona), and the primary provider gets that role, stripped, and the message text |
| `Pipeline.HeadingAnswerGivesEmptyReply` | main.py:254-255 | an answer that is only a heading line becomes an empty reply |
| `Pipeline.HandleMessage` | main.py:214-255 | a message without a chat changes nothing and is ignored; otherwise the chat's entry is created (and saved) even when the message is then ignored, and the action is `Decide`'s |

## Left out

- The Telegram client is not modelled. This covers `app`, the decorators and filters, `send_chat_action`, `reply_text` and `m.delete()`. Whether a delete succeeds is an input.
- HTTP is not modelled. This covers the aiohttp session (`get_session`, `_shutdown`), URL building with `urlencode`, and the requests themselves. What each provider did is an input, and the model records which requests would have been sent.
- `asyncio.wait_for` and `FAST_TIMEOUT` are not modelled; they are concurrency and timing. A timeout is an input that means no answer.
- Parsing is not modelled. `json.loads` and `json.load` are library code, so the model takes either the parsed value or the fact that parsing failed.
- File I/O is not modelled. `save_data` is taken to succeed.
- Store.ChatStore.SaveData: `open(DATA_FILE, "w")` empties the file before `json.dump` runs, so a dump that raises leaves the file empty or half-written, and the error is only logged. The model takes every save to succeed and does not capture that case.
- Startup is not modelled. This covers reading `API_ID`, `API_HASH`, `SESSION`, `DATA_FILE`, `MAX_SENTENCES`, `MAX_CHARS` and the URLs from the environment, the startup abort, `main()` and logging. The defaults `MAX_SENTENCES` = 1 and `MAX_CHARS` = 15 are constants, and `Settings` carries other values.
- `start_cmd` is not modelled. It replies with a fixed help text and reads no state.
- A message whose `m.from_user` is `None` is not modelled. `m.from_user.is_self` would raise there; `Message.fromSelf` is a plain boolean.
- Pipeline.SearchMention: `\w` is the ASCII letters, digits and '_'. Python's Unicode `\w` also matches other letters and digits, so the model misses mentions such as "@ñ".
- Store.CfgOf: the source uses whatever the loaded file holds. The model reads a role that is not a string as no role, and an `enabled` that is not a boolean as false. The source would treat a truthy non-boolean as switched on, and a chat entry that is not an object would make it raise.
- Store.LoadedChats: top-level keys of the file other than `chats` are not kept. The source keeps them and writes them back on the next save.
- Json.Get: a `Json.JObject` may repeat a key, and `Get` (and so `Store.CfgOf` and the extraction in `Siputzx`) then takes the first entry. The dict `json.loads` builds keeps the last value of a repeated key, so for such bodies the model may read a different value. What is proved about provider bodies and file entries holds as the source behaves for objects whose keys are distinct. `Store.DecodeChats` does keep the last entry, as `json.load` does.
- Pipeline.Decide: reads one snapshot of the chat's settings. The source reads `cfg`, the dict stored in the chats map, after `await m.delete()` and again after `await client.send_chat_action(...)` (main.py:239, main.py:244). A `.chat` or `.setrole` handled during those awaits is seen there. Interleaved handlers are not modelled.
- Sending an empty reply is not modelled. An answer that is only a heading gives `reply_text("")` (see `Pipeline.HeadingAnswerGivesEmptyReply`), and what Telegram does with that is library behaviour.
- Store.Switch compares after lowering ASCII letters only. This decides the same as `str.lower()` for the comparison with "on" and "off", because only 'O', 'N' and 'F' lower to 'o', 'n' and 'f'.
