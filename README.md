# Converse, modelled in Dafny

Converse is a browser extension that replaces Twitch's chat with its own.
A background service worker holds one IRC connection to Twitch chat for the
signed-in account. It joins and parts channels for the open chat tabs, relays
chat lines to those tabs and reconnects with exponential backoff. A content
script in each Twitch tab keeps the chat state:
- the channel or VOD being watched;
- the rendered lines;
- the de-duplication set;
- the message buffer and its cap;
- the VOD poller.

It also renders message bodies into text and emote segments. Library code
parses IRC lines, keeps the account list, and builds and caches the emote
maps of three providers and the badge maps. The popup switches and removes
accounts and edits the settings.

The project models that core:

| file | module | what it models |
|---|---|---|
| `optional.dfy` | `Optional` | `Option` / `Result` |
| `js_string.dfy` | `JsString` | the JavaScript string operations the source relies on: `indexOf`, `substring`, `split`, first and global `replace`, `toLowerCase`, `padStart`, `%` truncating toward zero, `ToInt32` |
| `js_object.dfy` | `JsObject` | objects filled by `obj[k] = v` in order (the last write wins) and object spread |
| `irc.dfy` | `Irc` | `parseIRCMessage`: tags with IRCv3 value unescaping, prefix, command, channel, trailing text, username |
| `relay_machine.dfy` | `RelayMachine` | the background worker as a state machine: socket life-cycle, handshake, PING/PONG keep-alive, `001` re-join, backoff, joins and parts, the ports of open tabs and what is posted to them |
| `relay.dfy` | `Relay` | the `Supervisor` class whose fields are the worker's module state, each handler a method proved against `RelayMachine`; the recent-messages fetch |
| `chat_url.dfy` | `ChatUrl` | `getChannel` and `getVodId` on the page path |
| `chat_render.dfy` | `ChatRender` | emote segments, word splitting, `emoteUrl3x`, `isColorReadable` (with `parseInt(…, 16)`), `hashColor`, the VOD timestamp, the settings spinners |
| `chat_state.dfy` | `ChatState` | the chat state of one tab and `handleIRCMessage`, `pruneMessages`, `pollChannel` and the VOD poll tick as functions on it |
| `chat_view.dfy` | `ChatView` | the `Chat` class holding that state, its handlers as methods proved against `ChatState` |
| `accounts.dfy` | `Accounts` | the stored account list: active account, add, switch, remove |
| `emotes.dfy` | `Emotes` | the emote map builders, the TTL cache in storage and the precedence of the six maps |
| `badges.dfy` | `Badges` | badge response parsing, the global badges memo and the global/channel merge |
| `popup.dfy` | `Popup` | the account buttons, the font-size and spacing clamps, hex colour inputs, and loading and saving the settings |

Fetches, storage reads and clocks are parameters:
- a response is `Fetched(data)`/`Failed(status)` or an `Option`;
- the time is a `now: int`;
- the set of ports whose `postMessage` throws is a `dead` set.

A handler that the source runs against a socket or a timer is a method or
function of the state, one event per call.

Where the JavaScript differs from its natural reading, the model follows the
code:
- a CLEARCHAT with an empty trailing text clears everything (`""` is falsy);
- a message cap of 0 prunes every rendered line, but the buffer is not
  capped (`slice(-0)` is the whole array);
- `handleIRCMessage` throws (`Outcome.threw`), which stops a batch of recent
  messages or VOD comments, in four places. Three of them come after the id
  is remembered, the message buffered and the stripe flipped, but before the
  line is appended:
  - a bare `badges` tag (the value `true`) with badges shown;
  - a sender with no username and no known colour, whose name colour falls
    through to `hashColor(null)`;
  - a bare `emotes` tag, or an entry of it without `:`, with Twitch emotes
    enabled.

  The fourth is a negative cap, which throws after the line is added;
- a settings merge is shallow, so a stored provider object replaces the
  default one whole;
- IRC tag unescaping is sequential, so an escaped backslash followed by `s`
  reads back as a space;
- `\:` is not unescaped at all.

## Model

| member | source | states |
|---|---|---|
| Irc.ParseIRCMessage | src/lib/irc.js:3-67 | the parsed message equals the specification function `Parse`, assembled from the tag block, prefix, command, channel, trailing text and username |
| Irc.FillTags | src/lib/irc.js:11-23 | the loop over `key=value` pairs builds exactly the tag map `TagsOf(pairs)` |
| Irc.ReadTags | src/lib/irc.js:8-25 | the tag block of a line starting with `@` is read up to the first space, and the cursor is left after it |
| Irc.ReadPrefix | src/lib/irc.js:28-33 | the prefix is the text between `:` and the next space (or the whole line when there is none), and the rest follows it |
| Irc.ReadBody | src/lib/irc.js:36-57 | command, channel and trailing text are those the specification functions give for the rest of the line |
| Irc.ReadUsername | src/lib/irc.js:60-64 | the username is the prefix up to `!` |
| Irc.FlagPair | src/lib/irc.js:13-15 | a pair without `=` is a flag tag under its whole text |
| Irc.KeyValuePair | src/lib/irc.js:16-21 | `key=value` stores the unescaped value under the key |
| Irc.TagsOfLastWins | src/lib/irc.js:11-23 | a repeated tag key holds the value of its last occurrence |
| Irc.TagsOfKeys | src/lib/irc.js:11-23 | the tag map's keys are exactly the keys of the pairs |
| Irc.UntaggedLineHasNoTags | src/lib/irc.js:8 | a line not starting with `@` has no tags |
| Irc.UnescapeEscape | src/lib/irc.js:16-21 | unescaping undoes IRCv3 escaping for every value without `;` or `\` |
| Irc.EscapedBackslashSIsMisread | src/lib/irc.js:16-21 | the value `\s`, escaped as `\\s`, reads back as `\` followed by a space, because the replacements run one after another |
| Irc.EscapedSemicolonIsKept | src/lib/irc.js:16-21 | an escaped `;` is left as `\:` |
| Irc.PrefixUpToSpace | src/lib/irc.js:28-33 | the prefix runs to the first space and the rest starts after it |
| Irc.PrefixWithoutSpace | src/lib/irc.js:28-33 | with no space after the prefix, the prefix keeps the leading `:` and the whole line stays the rest |
| Irc.UsernameBeforeBang | src/lib/irc.js:60-64 | a username exists exactly when the prefix is non-empty; it has no `!` and the prefix starts with it followed by `!` |
| Irc.PlainLine | src/lib/irc.js:8-33 | a line with neither tags nor prefix has no tags, prefix or username, and is all body |
| Irc.CommandIsFirstToken | src/lib/irc.js:36-38 | the command is the first space-free token of the body |
| Irc.ChannelIsSecondToken | src/lib/irc.js:41-48 | the channel is the second token without its `#`, and is absent exactly when that token does not start with `#` |
| Irc.TrailingAfterSpaceColon | src/lib/irc.js:52-54 | the trailing text is everything after the first ` :` at or after the command |
| Irc.TrailingFallback | src/lib/irc.js:55-57 | with no ` :`, the trailing text is the remaining tokens after the command (and channel) joined by spaces, if any |
| Irc.BodyFields | src/lib/irc.js:36-57 | the body `command #channel :text` reads back as exactly that command, channel and text |
| Irc.TaggedHeader | src/lib/irc.js:8-25 | a tag block `@b ` is read as the pairs of `b` split on `;` |
| Irc.PrefixPart | src/lib/irc.js:28-33 | a `:prefix body` part reads back as that prefix and body |
| Irc.ParseFormattedLine | src/lib/irc.js:3-67 | a line formatted from tags, prefix, command, channel and text parses back to exactly those fields and the username of the prefix |
| JsString.Split | src/lib/irc.js:11 | `split` gives at least one part; joining the parts with the separator restores the string; no part contains the separator |
| JsString.ToInt32 | src/content.js:929 | the conversion `hash << 5` applies to its left operand lands in the signed 32-bit range |
| JsString.ToInt32Congruent | src/content.js:929 | that conversion changes the value by a multiple of 2^32 |
| JsString.JsRem | src/content.js:931 | `%` truncates toward zero: the result lies strictly between `-b` and `b` and agrees with the mathematical remainder on non-negative operands |
| JsString.IndexOfFrom | src/lib/irc.js:9 | `indexOf` finds the first occurrence at or after the start, or returns -1 when there is none |
| JsObject.AssignKeys | src/lib/emotes.js:25-33 | an object filled pair by pair has exactly the keys written |
| JsObject.AssignLastWins | src/lib/emotes.js:25-33 | a key holds the value of its last write |
| JsObject.AssignValueWritten | src/lib/emotes.js:25-33 | every key's value comes from the last pair written for it |
| JsObject.Spread | src/lib/emotes.js:159 | object spread has the keys of both objects; the right one wins on a collision |
| RelayMachine.ConnectIRCGuard | src/background.js:37-48 | `connectIRC` does nothing without an account or with a connecting/open socket; otherwise it starts a not-ready connection; it is idempotent and leaves sent lines, joins and the delay alone |
| RelayMachine.OpenSendsHandshake | src/background.js:44-48 | on open, the socket is open and exactly the CAP request, `PASS oauth:<token>` and `NICK <login>` are sent |
| RelayMachine.FrameLinesOfFrame | src/background.js:50-52 | splitting a CRLF-framed frame on `\r\n` and dropping empty parts gives back the lines |
| RelayMachine.FrameLinesAreClean | src/background.js:50-52 | every handled line is non-empty and has no CRLF |
| RelayMachine.PingIsAnswered | src/background.js:53-56 | a line starting with PING is answered with PONG on an open socket, and nothing else changes |
| RelayMachine.WelcomeRejoins | src/background.js:60-69 | `001` marks the connection ready, resets the backoff, starts the keep-alive and sends `JOIN #ch` for every joined channel in order |
| RelayMachine.ControlLines | src/background.js:71-79 | PONG only records the reply; RECONNECT closes the socket |
| RelayMachine.OtherLinesIgnored | src/background.js:50-91 | any other non-relayed command leaves the state unchanged |
| RelayMachine.BroadcastAppends | src/background.js:141-150 | a broadcast only appends posts, and every appended post is the one broadcast |
| RelayMachine.BroadcastKeepsLivePorts | src/background.js:141-150 | a broadcast drops exactly the ports whose post throws, keeps the others in their original order, and posts once to each of them, in that order; nothing else changes |
| RelayMachine.OnParsedRelaysOnlyChat | src/background.js:81-89 | a relayed command is broadcast as an `irc-message`; otherwise the posts gained are relays only |
| RelayMachine.OnLineRelaysOnlyChat | src/background.js:50-91 | handling one line only appends relayed chat to the posts |
| RelayMachine.OnLinesRelaysOnlyChat | src/background.js:50-91 | handling a whole frame only appends relayed chat to the posts |
| RelayMachine.CloseSchedulesReconnect | src/background.js:93-101 | on close the connection stops being ready, the keep-alive stops and one reconnect is scheduled after the current delay |
| RelayMachine.SwitchCostsOneWait | src/background.js:93-101 | after an account switch (background.js:377-380, and 361-362 for `add-account`) on an open connection, the old socket's late close adds one wait of the current delay, and its timer finds the new socket connecting and only doubles the delay |
| RelayMachine.StaleCloseAfterWelcomeStalls | src/background.js:93-101 | a late close of the old socket that lands after the new connection's `001` leaves it open but not ready: joins and chat lines are no longer sent, the keep-alive does nothing and the reconnect timer only doubles the delay |
| RelayMachine.StaleCloseKeepsValid | src/background.js:93-101 | the late close keeps the state valid and only extends the logs |
| RelayMachine.TimerDoublesDelay | src/background.js:98 | the reconnect timer doubles the delay up to 30 s, and reconnects only with an account |
| RelayMachine.RepeatedFailures | src/background.js:93-101 | n failed connections in a row wait the sequence `Waits(delay, n)` |
| RelayMachine.WaitsAt | src/background.js:98 | the i-th wait is `min(delay * 2^i, 30000)` |
| RelayMachine.BackoffSchedule | src/background.js:98 | from a fresh start the waits are 1, 2, 4, 8, 16, 30, 30 seconds |
| RelayMachine.PingTickCases | src/background.js:108-122 | the keep-alive tick is idle before ready, closes the socket when the last PING went unanswered, and otherwise sends PING and waits for a reply |
| RelayMachine.SilentServerIsDropped | src/background.js:108-122 | a server that never answers is dropped on the second tick after one PING |
| RelayMachine.JoinChannelOnce | src/background.js:124-128 | joining records the channel once, sends `JOIN #ch` only the first time and only when ready, and is idempotent |
| RelayMachine.PartChannelOnce | src/background.js:130-134 | parting removes only that channel, sends `PART #ch` only when it was joined and ready, and is idempotent |
| RelayMachine.JoinThenPart | src/background.js:124-134 | joining a new channel and parting it restores the joined list |
| RelayMachine.SendMessageGuard | src/background.js:136-139 | a chat message is sent as `PRIVMSG #ch :text` exactly when there is an account and the connection is ready and open |
| RelayMachine.ChannelChangeKeepsPrevious | src/background.js:241-253 | a tab's channel change joins the new channel, keeps every channel already joined and records the tab's channel |
| RelayMachine.DisconnectPartsOnlyUnwatched | src/background.js:308-315 | a closed tab's port is dropped, and its channel is parted only when no remaining tab watches it |
| RelayMachine.AccountChangeReconnects | src/background.js:376-390 | an account change closes the old connection, reconnects for the new account (or stays closed for none) and posts only the new account summary |
| RelayMachine.InitValid | src/background.js:394-397 | start-up gives a valid state that is connecting when an account is stored |
| RelayMachine.OnLinesKeepsValid | src/background.js:50-91 | handling a frame keeps the state valid (channels and ports listed once, ready only on an open or closing socket, delay within 1–30 s) and only extends sent lines and posts |
| RelayMachine.PortDisconnectKeepsValid | src/background.js:308-315 | a tab disconnect keeps the state valid |
| RelayMachine.AccountChangedKeepsValid | src/background.js:376-390 | an account change keeps the state valid |
| RelayMachine.ChannelChangedKeepsValid | src/background.js:241-253 | a channel change keeps the state valid |
| RelayMachine.StepKeepsValid | src/background.js:37-390 | every enabled event keeps the state valid and only extends sent lines and posts |
| Relay.Supervisor.constructor | src/background.js:12-19 | the worker starts in `Init(account)`, valid |
| Relay.Supervisor.ConnectIRC | src/background.js:37-42 | the new state is `ConnectIRC` of the old |
| Relay.Supervisor.OnOpen | src/background.js:44-48 | the new state is the handshake state, still valid |
| Relay.Supervisor.OnMessage | src/background.js:50-91 | handling a frame line by line reaches `OnMessage` of the old state, still valid |
| Relay.Supervisor.OnLine | src/background.js:53-89 | one line is handled as `OnLine` specifies |
| Relay.Supervisor.Welcome | src/background.js:60-69 | the re-join loop sends a JOIN per joined channel as `Welcome` specifies |
| Relay.Supervisor.Broadcast | src/background.js:141-150 | the loop over ports posts to each live port and drops dead ones, as `Broadcast` specifies |
| Relay.Supervisor.OnError | src/background.js:103-105 | an error closes the socket, still valid |
| Relay.Supervisor.OnClose | src/background.js:93-101 | a close schedules the reconnect, still valid |
| Relay.Supervisor.ReconnectTimerFires | src/background.js:98-100 | the timer doubles the delay and reconnects, still valid |
| Relay.Supervisor.PingTick | src/background.js:108-122 | the keep-alive tick, still valid |
| Relay.Supervisor.JoinChannel | src/background.js:124-128 | a join, still valid |
| Relay.Supervisor.PartChannel | src/background.js:130-134 | a part, still valid |
| Relay.Supervisor.SendMessage | src/background.js:136-139 | a chat message, still valid |
| Relay.Supervisor.PortConnect | src/background.js:236-238 | a new tab port is recorded, still valid |
| Relay.Supervisor.ChannelChanged | src/background.js:241-253 | a tab's channel change, still valid |
| Relay.Supervisor.PortDisconnect | src/background.js:308-315 | a tab disconnect, still valid |
| Relay.Supervisor.AccountChanged | src/background.js:376-390 | an account change, still valid |
| Relay.FetchRecentMessages | src/background.js:153-167 | a failed response is the error `recent-messages: <status>`; otherwise the result is the parsed history keeping only chat commands, in order |
| Relay.KeepChatMembers | src/background.js:160-165 | the kept messages are exactly the chat-command messages |
| Relay.HistoryMembers | src/background.js:160-165 | a message is in the history exactly when it is a chat command parsed from one of the raw lines |
| ChatUrl.GetChannelOfSegment | src/content.js:39-58 | a path `/name` or `/name/…` with a 1–25 word-character name gives the lower-cased name, unless it is a reserved page |
| ChatUrl.GetChannelShape | src/content.js:39-58 | every channel found is the lower-cased first path segment of 1–25 word characters and is not reserved |
| ChatUrl.VodPageHasNoChannel | src/content.js:39-58 | a `/videos/…` path has no channel |
| ChatUrl.GetVodIdOfDigits | src/content.js:60-63 | `/videos/<digits>` gives those digits |
| ChatUrl.GetVodIdShape | src/content.js:60-63 | a VOD id exists exactly when `/videos/` is followed by a digit, and it is the maximal run of digits there |
| ChatRender.BuildSegments | src/content.js:806-822 | the loop over emote ranges builds exactly `Segments(text, ranges, 0)` |
| ChatRender.SegmentsRebuildText | src/content.js:806-822 | the segments' text, with each emote counting as its text, rebuilds the message |
| ChatRender.SegmentsFollowRanges | src/content.js:806-822 | the emote segments are one per range, in range order |
| ChatRender.EmoteNamedByRange | src/content.js:806-822 | each emote segment carries the range's id and the text it covers |
| ChatRender.TextSegmentsNonEmpty | src/content.js:806-822 | no text segment is empty |
| ChatRender.SplitWords | src/content.js:836 | `split(/( +)/)` alternates words and space runs, has odd length and concatenates back to the text |
| ChatRender.UpscaleChangesOneDigit | src/content.js:871-877 | `emoteUrl3x` either leaves the URL alone or changes exactly one `1` to the 3x digit (`4` for FFZ, `3` otherwise) |
| ChatRender.FfzUrlUpscaled | src/content.js:871-877 | an FFZ URL ending in `/1` ends in `/4` afterwards |
| ChatRender.ParseHexDigits | src/content.js:921 | `parseInt(…, 16)` of two or more hex digits is their value |
| ChatRender.HexValueAppend | src/content.js:921 | the value of a digit string is the value of its head shifted by its tail |
| ChatRender.ReadableSixDigits | src/content.js:919-924 | a six-digit colour is readable exactly when `299r + 587g + 114b >= 30000` (luminance at least 30) |
| ChatRender.BlueIsUnreadable | src/content.js:919-924 | pure blue is too dark |
| ChatRender.WhiteIsReadable | src/content.js:919-924 | white is readable |
| ChatRender.NonHexIsUnreadable | src/content.js:919-924 | a colour whose first character after `#` is not a hex digit, sign or space parses to NaN and is unreadable |
| ChatRender.HashColor | src/content.js:926-933 | the hue is in 0–359 and the colour is `hsl(hue, 70%, 60%)` of the username's hash |
| ChatRender.HashIsStringHash | src/content.js:926-930 | the 32-bit folded hash agrees, modulo 2^32, with the polynomial string hash `Σ c·31^k` |
| ChatRender.VodFieldsRecompose | src/content.js:719-724 | hours, minutes and seconds of a VOD offset are in range and recompose to it |
| ChatRender.VodStampDigits | src/content.js:719-724 | the VOD stamp is `h:mm:ss` with two-digit minutes and seconds |
| ChatRender.SpinnerStaysInRange | src/content.js:309-334 | the settings spinners and the cap field stay in their ranges, keep an in-range value and step by at most one |
| ChatState.ClearChatKeepsOthersInOrder | src/content.js:670-682 | clearing a user keeps every other user's lines and only those, in order |
| ChatState.ClearMsgRemovesFirstOnly | src/content.js:684-692 | deleting a message id removes only its first line, and nothing when no line has it |
| ChatState.CapBufferKeepsLast | src/content.js:705-708 | the buffer keeps its newest `cap` messages; cap 0 keeps it whole and a negative cap drops from the front |
| ChatState.PruneKeepsNewest | src/content.js:935-939 | pruning keeps at most `cap` lines, the newest ones, and changes nothing within the cap |
| ChatState.UnmountedIgnoresAll | src/content.js:667-669 | before the chat is mounted every message is ignored |
| ChatState.ClearChat | src/content.js:670-682 | CLEARCHAT with a user removes exactly that user's lines; without one (or with an empty one) it clears all; nothing else changes |
| ChatState.ClearMsg | src/content.js:684-692 | CLEARMSG removes the first line with the target id and nothing else; without a target it does nothing |
| ChatState.IgnoredMessages | src/content.js:694-695 | a non-PRIVMSG, or a PRIVMSG for another channel, is ignored |
| ChatState.DuplicateDropped | src/content.js:698-702 | a message whose id was already seen is ignored |
| ChatState.AcceptedMessage | src/content.js:698-788 | an accepted message records its id, flips the line parity and ends the capped buffer; it throws exactly when building its line throws (bare `badges`, no colour and no username, bad `emotes`) or the cap is negative; a line that throws leaves the list untouched, and one that does not ends it, within the cap |
| ChatState.RenderableNeverThrows | src/content.js:739-766 | a message with a username, no bare `badges` tag and a well-formed `emotes` tag never throws while its line is built |
| ChatState.LearnColorKeepsColorThrows | src/content.js:756-763 | learning the tag colour never changes whether the name colour falls through to `hashColor(null)` |
| ChatState.HandleChangesOnlyChat | src/content.js:667-789 | handling a message changes only the list, the seen ids, the buffer, the stripe and the learnt colours |
| ChatState.ZeroCapKeepsWholeBuffer | src/content.js:705-708 | with cap 0 the buffer keeps every message, and no rendered line survives unless the line threw before it was appended |
| ChatState.SeenOnlyGrows | src/content.js:698-702 | handling a message never forgets a seen id and never changes the channel |
| ChatState.HandleAllAppend | src/content.js:71-73 | for a `recent-messages` batch, and the `vod-comments` loop at content.js:90-92 alike: a batch split in two is its first part, then, unless that threw, the second part from the state the first left |
| ChatState.BatchHandledInFull | src/content.js:71-73 | for a `recent-messages` batch, and the `vod-comments` loop at content.js:90-92 alike: with a non-negative cap a batch of renderable messages never throws, so what follows it is handled from the state it leaves |
| ChatState.NegativeCapStopsBatch | src/content.js:71-73 | for a `recent-messages` batch, and the `vod-comments` loop at content.js:90-92 alike: with a negative cap every accepted message throws and the rest of the batch is dropped; the list is left empty, or untouched when the line threw before it was appended |
| ChatState.HandleAllKeepsValid | src/content.js:667-789 | handling messages keeps the state valid and, under a positive cap, the buffer and the lines within it |
| ChatState.EnteringVod | src/content.js:1137-1159 | entering a VOD clears the chat and seen ids, drops the live channel, announces `vod-changed` and starts the poller at offset -1 |
| ChatState.SameVod | src/content.js:1159 | staying on the same VOD changes nothing |
| ChatState.LeavingVod | src/content.js:1141-1146 | leaving a VOD stops the poller and forgets the VOD channel, then follows the live channel |
| ChatState.LiveNavigation | src/content.js:1161-1176 | a new live channel clears the chat and announces `channel-changed` when there is one; the same channel changes nothing |
| ChatState.PollKeepsValid | src/content.js:1137-1178 | channel polling keeps the state consistent |
| ChatState.PollerTick | src/content.js:1114-1128 | the poller ignores a missing video and an unchanged offset; a jump of more than 5 s clears the chat and posts `vod-seek`, otherwise it posts `vod-time`; it records the offset |
| ChatState.TickKeepsValid | src/content.js:1114-1128 | a poll tick keeps the state consistent |
| ChatView.Chat.HandleIRCMessage | src/content.js:667-789 | the handler's new state and whether it threw are those of `Handle`, including the throws while the line is built |
| ChatView.Chat.BuildLine | src/content.js:710-788 | building the line throws at a bare `badges` tag before the colour is learnt, or at a missing colour and username or a bad `emotes` tag after it; otherwise the line is appended and the list pruned |
| ChatView.Chat.ClearUser | src/content.js:675-680 | the loop over lines removes exactly the user's lines, as `DropUser` specifies |
| ChatView.Chat.ClearMessage | src/content.js:686-690 | the loop removes the first line with the id, as `RemoveFirst` specifies |
| ChatView.Chat.PruneMessages | src/content.js:935-939 | the loop removes the oldest lines down to the cap and throws for a negative cap |
| ChatView.Chat.BufferMessage | src/content.js:705-708 | the buffer becomes the capped buffer with the message appended |
| ChatView.Chat.HandleMessages | src/content.js:71-73 | for a `recent-messages` batch, and the `vod-comments` loop at content.js:90-92 alike: a batch stops at the first message that throws and leaves the state and the throw `HandleAll` gives |
| ChatView.Chat.PollChannel | src/content.js:1137-1178 | channel polling leaves the state `PollChannel` gives |
| ChatView.Chat.VodPollTick | src/content.js:1114-1128 | a poll tick leaves the state `VodPollTick` gives |
| ChatView.Chat.Seek | src/content.js:1120-1128 | a seek empties the list and the buffer, resets the stripe, posts `vod-seek` and records the offset, changing nothing else |
| ChatView.Chat.StopVod | src/content.js:1132-1134 | stopping the poller |
| ChatView.Chat.StartVodPoll | src/content.js:1111-1113 | starting the poller resets the last offset |
| Accounts.FindActive | src/lib/auth.js:45-48 | the active account is the first active entry, and there is none exactly when no entry is active |
| Accounts.IndexOfUser | src/lib/auth.js:65 | `findIndex` gives the first entry with the user id, or -1 exactly when there is none |
| Accounts.AddedOnlyNewActive | src/lib/auth.js:63-67 | adding deactivates every other entry and replaces the user's entry in place or appends it; only the added entry is active |
| Accounts.AddedExactlyOneActive | src/lib/auth.js:63-67 | after adding exactly one entry is active, the added one |
| Accounts.SwitchedSetsFlags | src/lib/auth.js:73-78 | switching keeps every entry but its flag, and makes active exactly the entries of the chosen user |
| Accounts.SwitchedFindsUser | src/lib/auth.js:73-78 | after switching the active account is the user's first entry, or none when the user is unknown |
| Accounts.WithoutMembers | src/lib/auth.js:82 | the filter keeps exactly the other users' entries |
| Accounts.WithoutKeepsOrder | src/lib/auth.js:82 | the filter keeps the entries in order |
| Accounts.RemovedDropsUser | src/lib/auth.js:80-89 | removal drops the user and leaves an active entry whenever any entry remains |
| Accounts.RemovingInactiveKeepsFlags | src/lib/auth.js:83-85 | when another entry is active, removal only filters |
| Accounts.AccountStore.GetActiveAccount | src/lib/auth.js:45-48 | the loop finds `FindActive` of the list |
| Accounts.AccountStore.AddAccount | src/lib/auth.js:50-71 | a failed validation is the error `Token validation failed` with the list unchanged; otherwise the new active account is added |
| Accounts.AccountStore.SwitchAccount | src/lib/auth.js:73-78 | the list becomes `Switched` and the result is its active account |
| Accounts.AccountStore.RemoveAccount | src/lib/auth.js:80-89 | the list becomes `Removed` and is returned |
| Accounts.SetActiveFlags | src/lib/auth.js:75 | the loop sets each entry's flag as `Switched` does |
| Accounts.FilterOut | src/lib/auth.js:82 | the loop keeps what `Without` keeps |
| Accounts.SomeActive | src/lib/auth.js:83 | `some(a => a.active)` is `AnyActive` |
| Emotes.FfzUrl | src/lib/emotes.js:114 | the FFZ URL is the `"1"` URL when it is non-empty, otherwise the first URL, or none |
| Emotes.Build7TV | src/lib/emotes.js:25-33 | the 7TV loop builds `Assign` of the pairs of emotes that have a host |
| Emotes.BuildBTTV | src/lib/emotes.js:71-77 | the BTTV loop builds `Assign` of the code/entry pairs |
| Emotes.BuildFFZ | src/lib/emotes.js:111-119 | the FFZ nested loop builds `Assign` of the pairs set after set |
| Emotes.SevenTvMapContents | src/lib/emotes.js:25-33 | a name is in the 7TV map exactly when some hosted emote has it, and maps to such an emote's entry |
| Emotes.FfzMapContents | src/lib/emotes.js:111-119 | a name is in the FFZ map exactly when some emoticon of some set has it, and maps to the entry of the last such emoticon, sets taken in order |
| Emotes.SharedEmoteWins | src/lib/emotes.js:92-98 | a shared BTTV emote overrides a channel emote with the same code |
| Emotes.GetCached | src/lib/emotes.js:7-11 | a cached map is returned exactly when the entry exists and is younger than its TTL |
| Emotes.CacheBehaviour | src/lib/emotes.js:18-37 | a cache hit leaves the cache alone; a failed fetch gives `{}` and caches nothing; a fetched map is cached and served again until it expires |
| Emotes.CacheExpires | src/lib/emotes.js:4-11 | an entry at least its TTL old is not served |
| Emotes.EmoteCache.SetCache | src/lib/emotes.js:13-15 | the entry under the key is the data with its time and TTL |
| Emotes.EmoteCache.Fetch7TVGlobal | src/lib/emotes.js:18-37 | the cache and result follow `Fetched` with the global TTL and key |
| Emotes.EmoteCache.Fetch7TVChannel | src/lib/emotes.js:39-59 | the same with the per-channel key and TTL |
| Emotes.EmoteCache.FetchBTTVGlobal | src/lib/emotes.js:62-80 | the same for BTTV global emotes |
| Emotes.EmoteCache.FetchBTTVChannel | src/lib/emotes.js:82-101 | the same for BTTV channel and shared emotes, in that order |
| Emotes.EmoteCache.FetchFFZGlobal | src/lib/emotes.js:104-122 | the same for FFZ global sets |
| Emotes.EmoteCache.FetchFFZChannel | src/lib/emotes.js:124-145 | the same for FFZ channel sets |
| Emotes.AllEmotesPrecedence | src/lib/emotes.js:159 | the merged map has every key of the six maps, with precedence 7TV channel, 7TV global, BTTV channel, BTTV global, FFZ channel, FFZ global |
| Badges.ParseBadgeResponse | src/lib/badges.js:32-40 | the nested loop builds `Assign` of the `set/version → url` pairs |
| Badges.ParsedHasEveryVersion | src/lib/badges.js:32-40 | every version of every set is a key of the parsed map |
| Badges.LaterDuplicateWins | src/lib/badges.js:36 | a key holds the image of the version written last for it |
| Badges.VersionWrittenLast | src/lib/badges.js:34-38 | when no later version of the set and no later set writes the key, the pair for that version is the last write of its key |
| Badges.MergeBadges | src/lib/badges.js:47-48 | the merge has the keys of both maps and the channel badge wins |
| Badges.BadgeCache.FetchGlobalBadges | src/lib/badges.js:6-18 | the memo is returned when set; a failure is the error `Global badges: <status>` and leaves it unset; a success is parsed and memoised |
| Badges.BadgeCache.FetchChannelBadges | src/lib/badges.js:20-30 | a failure is the error `Channel badges: <status>`; otherwise the parsed map |
| Badges.BadgeCache.FetchBadges | src/lib/badges.js:42-49 | the result is the merge of global and channel badges, and an error when either request fails; a global response that arrives is memoised even when the channel request fails |
| Popup.SwitchHandler | src/popup.js:42-51 | the switch button sets the flags as `Switched` does |
| Popup.RemoveHandler | src/popup.js:52-63 | the remove button leaves the list as `Removed` does |
| Popup.ClampFontSize | src/popup.js:130-132 | the font size is clamped to 10–20 and an in-range value is kept |
| Popup.ClampMsgSpacing | src/popup.js:143-145 | the spacing is clamped to 0–20 and an in-range value is kept |
| Popup.FontSizeSteps | src/popup.js:133-140 | the stepper buttons move one step inside the range and stop at its ends |
| Popup.HexColorParses | src/popup.js:160 | an accepted colour is `#` and six hex digits that read back as a 24-bit value |
| Popup.NotHexColors | src/popup.js:160 | short, long and non-hex colours are rejected |
| Popup.ColorInput | src/popup.js:158-165 | a colour is shown and saved exactly when it is a full hex colour |
| Popup.LoadSettings | src/popup.js:89-91 | the loaded settings have the default keys plus the stored ones; a stored value wins, and the default fills the rest |
| Popup.FreshFormShowsDefaults | src/popup.js:4-14 | with nothing stored the form shows the defaults |
| Popup.LoadSaved | src/popup.js:107-128 | loading the saved settings gives them back with the default `chatWidth` |
| Popup.SaveLoadRoundTrip | src/popup.js:89-128 | saving the form and loading it back shows the same form |
| Popup.ProvidersMergeShallow | src/popup.js:91-104 | a stored provider object replaces the default one whole, so a missing provider shows unchecked |

## Left out

- The DOM: building the chat UI, scrolling, the usercard, tooltips, resizing and theatre mode, and applying settings as styles. Rendered lines are modelled as (user, id, parity) records.
- Network and storage: `fetch`, `chrome.storage` and `WebSocket` are parameters (the response, the stored value, the events). Concurrent handlers and races between awaits are not modelled; each handler runs to completion.
- Time: `Date.now()`, `setTimeout` and `setInterval` become a `now` parameter and explicit timer events.
- OAuth and token refresh (`validateToken`, silent re-authentication), the Helix helpers and the user-id lookup are foreign calls and are left out.
- background.js has no handler for the `vod-*` posts. The `channel-changed` handler's fetch and its `channel-data`/`recent-messages` replies, `get-user-profile`, `get-accounts` and the account-list part of `add-account` only move data and are left out; the reconnect tail of `add-account` (background.js:359-365) is modelled by `RelayMachine.AccountChanged`. Of the tab-side listeners, `channel-data`, `account-info`, `vod-channel-data` and `user-profile` are left out; `vod-comments` is modelled like `recent-messages`.
- No `ChatView.Chat` method sets `vodChannel` to a value, because the `vod-channel-data` listener is left out; the VOD branch of the channel filter is covered only by the `ChatState` lemmas, which hold for every view.
- The background worker's `getSettings` uses the same shallow merge as `Popup.LoadSettings` and is not modelled separately.
- Parsing the IRC `emotes` tag into sorted ranges, and highlighting mentions with a regular expression, are left out. `BuildSegments` takes the ranges as given. Only whether the `emotes` tag makes the handler throw is modelled (`ChatState.EmotesThrow`); a login with regular-expression syntax in it, which could make the mention pattern throw, is not.
- ChatState.Handle: CLEARCHAT and CLEARMSG put the user and the target id into CSS selectors. The model removes exactly the lines whose user or id equals the text and never throws. In the source, a value with `"` throws a `SyntaxError` out of the handler, which also stops a batch. A backslash escape changes which lines match. And `[data-user=…]` also matches the mention spans inside other users' lines, which are removed with them. Twitch sends logins and ids that contain none of these characters.
- Floating point: the hue of `hashColor` is computed on integers, which `HashIsStringHash` relates to the 32-bit hash. The running `hash` is a double that grows by less than 2^32 per character, so the integers are exact for names under a million characters. `NaN` from `parseInt` in the spinners and the popup steppers is not modelled.
- ChatRender.IsColorReadable: `ParseIntHex` is the exact integer value of the hex digits. `parseInt` returns a double, so for more than 13 significant hex digits the low bits are rounded away before the conversion to 32 bits, which the model does not capture.
- Strings are Dafny strings, whose characters are Unicode scalar values, not UTF-16 code units. The model agrees with the source on text in which every character is one code unit. Emote ranges and `charCodeAt` index that sequence.
- Object keys such as `__proto__` are ordinary keys in the model, and a name such as `constructor` does not find an inherited colour in `userColors`.
- RelayMachine.AccountChanged: one socket is modelled, so the new socket replaces the one being closed, and `Step` has no event for the old socket's `onclose`, which the source still runs later against the shared state. That late close is the separate function `StaleClose`. `SwitchCostsOneWait` and `StaleCloseAfterWelcomeStalls` state its effects: one extra wait and a doubled delay on every switch, and, when it lands after the new `001`, a connection that stays not ready with no keep-alive, so joins and chat lines are dropped. `StepKeepsValid` does not cover it, but `StaleCloseKeepsValid` does.
- Popup.LoadSettings: the settings object is keyed by the nine keys the extension writes (`Popup.Key`); a stored object with any other key is not modelled.
- Emotes.EmoteCache: the `fetchAllEmotes` orchestration with `Promise.all` is not modelled; `AllEmotesPrecedence` states the merge of its six results.
- Emotes.EmoteCache: a channel whose user id is `global` shares its cache key with the global emotes; this is modelled as written and not proved about.
- Badges.BadgeCache.FetchBadges: both requests run, and the global error is reported when both fail; under `Promise.all` the first rejection to settle wins, which the model does not capture.
- Popup.FontSizeSteps: the steppers are modelled as `ClampFontSize(v ± 1)` on an integer value, without the `parseInt` of the input's text.
- Popup.SwitchHandler and Popup.RemoveHandler: the storage write and the re-render that follow them are not modelled.
