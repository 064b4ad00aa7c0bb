# Srain: formatting, wire format, membership, connection

Srain is a graphical IRC client. This project models the parts of it that hold
state, recurse or calculate, and proves what they promise.

**mIRC formatting.** A message is flat text with toggle codes for bold, italics,
underline, blink, reverse and colour. Srain compiles it to nested markup, with a
stack of open tags that is changed in place, and then links URLs and marks
mentions. `MircCodes` has the codes, `strtoul` with 64-bit `long` and 32-bit
`int`, and the scan that both mIRC renderers share; `MircFormat` what a colour code
is by the documented format, and where the scan departs from it; `MircColorize` the
context and the recursive routine; `MircMeaning` what flat codes and what nested
tags mean, and that the compiler carries the one into the other; `MircText` tells
colours and styles from the characters of the text alone; `MircRenderers` the two
scanners; `Markup` reads markup; `Passes` has the callbacks and what a pass
over markup keeps; `Mentions` what marking mentions does to styles; `Pipeline` runs
the passes in their order.

**The wire.** `CommandBuilder` and `Sending` cut a message between characters into
lines with room for a relay's prefix; `Framing` receives them byte by byte;
`Tags` and `Parsing` read them; `Delivery` puts these together; `Ctcp` wraps and
unwraps CTCP. `Utf8` knows where characters begin. A `char` is one byte in these
modules.

**Membership.** `Membership` has chats and server users that point at each other
through chat users, the user lists the chats show, and the event handlers that
change them. Freed objects are those outside the ghost sets `chats` and `users`.
Every handler keeps `State` (graph, lists and presence agree), which a new server
has, and `Streaming` (a chat that is joined has a stream), and takes in nothing but
new objects (`Grows`), so that handlers can follow one another in any order. What a
message does, and what it leaves alone, is said by one predicate for each (`Joins`,
`Parts` and so on), in terms of `Picture`s of the server before and after.

**The connection.** `Connection` is the state machine of a server together with
its session and the timers of the main loop, driven by any interleaving of what
the user does, timers, completions and removal; `Sessions` and `ServerMachine` have
the objects that do it. `Client` ties the connection to the chats: it hands on what
is received over the stream, empties the chats when the stream ends, and runs through
any sequence of messages, turns of the main loop, and chats the user opens or closes.

**Input history.** `InputHistory` has the lines that were sent and can be browsed.

`AsciiCase`, `Sequences` and `Wrappers` are shared by several of these.

Where the source changes things in place the model has classes with the same
fields and methods, and each method is proved against a function; what Srain
promises is proved of those functions and of the invariants. Calls into GLib and
GTK are functions with the behaviour their documentation gives.

## What was found

* The scanners depart from the colour format in two ways. They do not count the comma,
  so the last digit of a background is shown as text (`BackgroundDigitStays`); and
  `strtoul` takes blanks and a sign, so such text behind a bare colour code is lost
  together with a digit (`BlankAndDigitVanish`). `ResumesAtEndIff` says for each code
  when it is read to its end, `ColorCodesVanishIff` for each text what is shown.
* A run of three or more digits is cut to its first two only if the whole number
  fits 32 bits, or starts with two zeros: `DecodesTwoDigits`. Ten nines are
  read as 14 (`TenNinesAreMisread`).
* The message loop takes a channel name of at most 445 bytes (`LongestChannel`). The
  guard against an endless loop looks at the start of the message alone, and with
  446 to 448 bytes it can be missed (`GuardMissesLaterLines`); the loop ends for
  every message if and only if the channel is outside that range or blank
  (`EndsForEveryMessageIff`).
* A server that is disconnecting because an attempt was cancelled never leaves that
  state, whatever happens (`DisconnectingEndsIff`); two actions of the user lead
  there (`CancelledAttemptIsStuck`).
* Connecting by hand while the program waits to reconnect leaves the old timer
  armed, and after a DISCONNECT it can connect again (`HastyUserIsReconnected`);
  `ConnectsAgainIff` says exactly when. After a QUIT such a timer may start an
  attempt before the idle main loop removes the server (`BusyRemovalIff`).
* A second welcome on one stream overwrites the ping timer the server knows and leaves
  the first one running, which connects after a DISCONNECT as well
  (`SecondWelcomeReconnects`); the same theorems cover it.
* Renaming a user to a nick that another user has takes that user from the table. The
  invariant is kept if and only if that user is in no chat, and is freed
  (`Membership.SrnServer.Rename`); otherwise it stays in its chats
  (`RenameLosesNobodyIff`, `TakeNickOf`, `RenameOntoAnother`).
* A CTCP line of more than 512 bytes loses its end, and is not received as a line
  (`CtcpSurvives`).

## Assumptions

* Rendering works on Unicode scalar values: every byte the scanners look at is ASCII.
* A regular expression is any function that returns matches in range and not empty.
* Writes to the socket succeed and are complete.
* Every received line with its line end fits the buffer of 1024 bytes. A line with a NUL
  in it is cut there. A tag section ends at its first blank (`Tags.Sound`).
* Known nicks differ in more than ASCII case; the source looks users up by case in its
  table and regardless of case in its chats. A rename goes to a nick that is nobody
  else's, or that of a user who is in no chat. The name in a JOIN is a channel's.
* An attempt that was cancelled does not succeed, as `GTask` has it; ports are positive.
  Handlers run while there is a stream, but for that of its end.

## Model

| member | source | states |
|---|---|---|
| MircCodes.ReadNumber | src/render/mirc_colorize_renderer.c:134-140 | the number that is read is `strtoul`'s, cut to two characters |
| MircCodes.DecodesTwoDigits | src/render/mirc_colorize_renderer.c:134-140 | at any place of any text a run of digits gives the number of its first two if and only if the whole run fits 32 bits or those two are zeros |
| MircCodes.TenNinesAreMisread | src/render/mirc_colorize_renderer.c:134-140 | ten nines behind a colour code are read as 14 instead of 99 |
| MircCodes.ReadColorCode | src/render/mirc_colorize_renderer.c:126-160 | colours and next index of a colour code, with the comma left uncounted |
| MircText.ColorsInOrder | src/render/mirc_colorize_renderer.c:133-157 | of any colour code behind which nothing is swallowed, and whose runs of digits fit 32 bits, the first run says the foreground and the run behind a comma the background, each missing just when it is empty |
| MircText.LookBehindCode | src/render/mirc_colorize_renderer.c:133-268 | text behind such a code is in the foreground of the first run if that is a colour, or else on the background of the second; without numbers it has no colour, and with a background alone the foreground stays |
| MircText.ColorizedLooks | src/render/mirc_colorize_renderer.c:115-316 | for every text each character shown looks as the control characters in front of it, told by their values, make it: bold, italic and underlined if the character was met an odd number of times since the last plain code, and in the colours of the last colour codes |
| MircText.TagsOfCodes | src/render/mirc_colorize_renderer.c:229-245 | bold, italics and underline are written as the elements b, i and u |
| MircText.ColorNames | src/render/mirc_colorize_renderer.c:63-81 | the sixteen colours have their names |
| MircFormat.ResumesAtEndIff | src/render/mirc_colorize_renderer.c:126-160 | the scan goes on at the end of a colour code, by the documented format of up to two digits, a comma and up to two digits, if and only if no blanks or sign stand behind the code in front of a digit, and the foreground is not followed by a comma and a digit, or a comma and such text |
| MircFormat.ColorCodesVanishIff | src/render/mirc_colorize_renderer.c:126-160 | of any text, what is shown is shorter than what the format leaves by the characters swallowed and longer by the digits left over; the two are equal if and only if every code that is read is free of both |
| MircFormat.BackgroundDigitStays | src/render/mirc_strip_renderer.c:103-115 | a message whose background digit is shown |
| MircFormat.BlankAndDigitVanish | src/render/mirc_strip_renderer.c:103-115 | a message of which a blank and a digit are lost |
| MircCodes.ScanShowsNoCode | src/render/mirc_strip_renderer.c:88-133 | none of the seven control codes is ever shown |
| MircCodes.ScanOfPlain | src/render/mirc_strip_renderer.c:121-130 | text without codes is shown as it is |
| MircColorize.DistinctIsShort | src/render/mirc_colorize_renderer.c:224-228 | distinct stack entries are at most six, so the limit of 128 is out of reach |
| MircColorize.ColorlizeContext.DoColorize | src/render/mirc_colorize_renderer.c:194-316 | the stack stays distinct, a code that was on it is off and the others are in order, a colour stays on it if one is known, and the output is the close and reopen tags; the recursion ends |
| MircColorize.ColorlizeContext.ToggleOff | src/render/mirc_colorize_renderer.c:270-315 | a code in the middle of the stack is taken out with everything above it closed and reopened |
| MircColorize.ColorlizeContext.Clear | src/render/mirc_colorize_renderer.c:200-211 | a plain code empties the stack and closes every tag from the top |
| MircColorize.ColorlizeContext.OpenColor | src/render/mirc_colorize_renderer.c:246-268 | colours out of range become unknown, and a tag is opened if one is known |
| MircColorize.ColorlizeContext.Reopen | src/render/mirc_colorize_renderer.c:299-302 | every tag that was closed on the way opens again: no reopening toggles anything off |
| MircMeaning.StackDiscipline | src/render/mirc_colorize_renderer.c:194-316 | after any prefix of any text the output is well nested, its open tags are the stack, the stack is distinct, and colour is on it if and only if one is known |
| MircMeaning.RenderingPreservesMeaning | src/render/mirc_colorize_renderer.c:115-316 | for every text the nested tags give each character the style that counting its toggles since the last plain code gives it, with the foreground, else the background, as its colour, and nothing is left open |
| MircMeaning.DrawInStep | src/render/mirc_colorize_renderer.c:194-316 | every code keeps stack, colours and output in step with the flat meaning |
| MircMeaning.MarkupSpells | src/render/mirc_colorize_renderer.c:176-185 | the characters in the output are those that the text shows, in order |
| MircRenderers.ColorizeText | src/render/mirc_colorize_renderer.c:115-192 | appends the compiled text to the markup, whatever was there before |
| MircRenderers.StripText | src/render/mirc_strip_renderer.c:82-134 | appends the characters that are shown, escaped |
| MircRenderers.ColorizerAgreesWithStripper | src/render/mirc_strip_renderer.c:88-133 | without its tags the colourised text is the stripped text |
| MircRenderers.StrippingIsIdempotent | src/render/mirc_strip_renderer.c:88-133 | stripping again changes nothing |
| Markup.ReadConcat | src/lib/markup_renderer.c:82-88 | reading markup piece by piece is reading it at once |
| Markup.GlyphsSpellPlainText | src/lib/markup_renderer.c:164-174 | the characters that are read are the text of the markup |
| Passes.FindLeftmost | src/render/url_renderer.c:146-162 | finds the match that the definition of the best one names |
| Passes.BestIsLeftmost | src/render/url_renderer.c:146-162 | no pattern matches further left than the one chosen, and an earlier pattern wins a tie |
| Passes.BestOfFour | src/render/url_renderer.c:127-162 | of the patterns for URLs, host names, channels and addresses the one matching furthest left is chosen, the earlier on a tie, and none just when none matches |
| Passes.LinkText | src/render/url_renderer.c:127-222 | every URL becomes a link and is recorded, and the rest is escaped |
| Passes.FitsLinked | src/render/url_renderer.c:127-222 | linked text is well nested, spells the text, and adds no style |
| Passes.LinksLeadToUrls | src/render/url_renderer.c:170-212 | the URLs recorded are those linked, in order, and each leads to the URL itself, or to it behind http://, the channel base, or mailto:, by the pattern that matched |
| Passes.MarkText | src/render/mention_renderer.c:117-164 | marks every mention and notes whether there was one |
| Passes.FitsMarked | src/render/mention_renderer.c:117-164 | marked text is well nested and spells the text from any place on |
| Pipeline.SrnMessage.Rerender | src/lib/markup_renderer.c:69-116 | a pass copies the tags, but not the root element it wraps the markup in, hands every stretch of text to its callback, and collects its URLs and mentions |
| Passes.RootIsDropped | src/lib/markup_renderer.c:125-162 | the element around the markup is not written back, whatever the callback |
| Passes.PassNests | src/lib/markup_renderer.c:125-174 | a pass keeps the nesting of the tags it is given, and with links the style of every character |
| Passes.FaithfulPass | src/lib/markup_renderer.c:69-116 | well-formed markup in, well-formed markup out, spelling what the callback makes of the text |
| Passes.ColorizingPreserves | src/render/mirc_colorize_renderer.c:97-113 | colourising any well-formed markup strips each stretch of its text |
| Passes.StrippingPreserves | src/render/mirc_strip_renderer.c:64-80 | stripping any well-formed markup strips each stretch of its text |
| Passes.LinkingPreserves | src/render/url_renderer.c:109-125 | linking keeps the text and the style of every character |
| Passes.MarkingPreserves | src/render/mention_renderer.c:61-115 | marking keeps the text |
| Pipeline.SrnMessage.RenderOne | src/render/mention_renderer.c:74-76 | a message that is known to mention the user is left alone by that pass |
| Mentions.MarkingHighlights | src/render/mention_renderer.c:117-164 | of any well-formed markup the characters outside mentions keep their style, and those of a mention are bold and in its colour besides |
| Pipeline.SrnMessage.Render | src/render/render.c:69-93 | for every set of flags without patterns the result is well formed and spells the content, or the stripped content if a mIRC flag is set; every character has the style its codes give it, those of a mention are bold and in its colour besides if mentions are looked for; URLs and mentions are those of the text that their renderers are given |
| Utf8.CutsIntoText | src/sirc/sirc_cmd_builder.c:119-143 | well-formed text cut at a boundary is two well-formed texts |
| Utf8.PreviousCharIsLast | src/sirc/sirc_cmd_builder.c:127-132 | the boundary found is the last one before the place |
| CommandBuilder.Builder.AddMiddle | src/sirc/sirc_cmd_builder.c:91-103 | a parameter is added if and only if the line stays within 462 bytes; the expected length is the length |
| CommandBuilder.Builder.SetTrailing | src/sirc/sirc_cmd_builder.c:116-148 | sets the part that the cutting function names and says where the rest starts; the expected length is the length |
| CommandBuilder.CutKeepsTheLimit | src/sirc/sirc_cmd_builder.c:121-143 | the two parts are the parameter, the cut is between characters, the line is shorter than 462 bytes, and no longer part would do |
| CommandBuilder.Builder.Build | src/sirc/sirc_cmd_builder.c:157-175 | the line has the expected length |
| Sending.Session.Raw | src/sirc/sirc_cmd.c:284-313 | at most 512 bytes go out |
| Sending.Session.SendMsg | src/sirc/sirc_cmd.c:125-157 | the bytes sent are the lines of the parts, and the outcome is that of the loop |
| Sending.EveryTurnTakesACharacter | src/sirc/sirc_cmd.c:131-152 | with room for a character each turn takes at least one and sends what it took |
| Sending.SplitterDelivers | src/sirc/sirc_cmd.c:125-157 | with a channel of at most 445 bytes any message goes out whole, in UTF-8 parts, on lines of at most 462 bytes, and the loop ends without its guard |
| Sending.LongestChannel | src/sirc/sirc_cmd.c:125-157 | 445 bytes is the longest channel with which every message is delivered |
| Sending.OutcomeSettles | src/sirc/sirc_cmd.c:125-157 | once the loop has ended, watching it longer gives the same outcome |
| Sending.GuardMissesLaterLines | src/sirc/sirc_cmd.c:139-144 | with 446 to 448 bytes there is a message for which the loop never ends |
| Sending.EndsForEveryMessageIff | src/sirc/sirc_cmd.c:125-157 | the loop ends for every message if and only if the channel is blank, or at most 445 or at least 449 bytes long |
| Framing.SplitGrows | src/sirc/sirc.c:213-252 | one byte more in a stream is one step of the receiver, wherever the stream is cut |
| Framing.UnlinesOfSplit | src/sirc/sirc.c:219-251 | the lines and the rest are the stream, and no line holds a line end |
| Framing.SplitOfUnlines | src/sirc/sirc.c:219-251 | lines that are sent come back in order, with what follows them |
| Framing.Receiver.OnByte | src/sirc/sirc.c:213-252 | where there is room, a byte finishes a line, which is read as a C string, or is kept |
| Framing.Receiver.Receive | src/sirc/sirc.c:186-252 | a stream that fits is delivered as the lines of splitting it at once, read as C strings, the unfinished rest is kept, and the buffer does not overflow |
| Framing.CStringsKeepIff | src/sirc/sirc.c:230-232 | reading lines as C strings loses nothing if and only if none holds a NUL |
| Tags.CountedTagsAreFilled | src/sirc/sirc_parse.c:113-118 | as many tags are filled as were counted |
| Tags.BackslashRead | src/sirc/sirc_parse.c:164-186 | what a backslash stands for with the character behind it, for each character |
| Tags.TagReader.Put | src/sirc/sirc_parse.c:156-187 | a character goes to the key or the value, within the buffers |
| Tags.TagReader.Finish | src/sirc/sirc_parse.c:136-154 | a tag is stored, without a value if that is empty |
| Tags.ReadSection | src/sirc/sirc_parse.c:108-189 | reads the tags of a sound section, or refuses one that is too long; neither buffer nor array overflows |
| Tags.TagsComeBack | src/sirc/sirc_parse.c:123-189 | reading undoes writing for every list of keys and values, empty values becoming none |
| Parsing.SircMessage.AddMiddles | src/sirc/sirc_parse.c:252-262 | the words are added in order, at least one parameter and at most 64 |
| Parsing.SircMessage.ParseRfc1459 | src/sirc/sirc_parse.c:202-276 | the message that is filled is the one the line says, and a line without command or parameters is refused |
| Parsing.SircMessage.Parse | src/sirc/sirc_parse.c:90-282 | the same with tags in front |
| Parsing.ParseUndoesBuild | src/sirc/sirc_parse.c:202-276 | a line built of a command, 1 to 64 parameters and any prefix is read as that command, prefix and parameters, whatever the last one holds |
| Parsing.OriginBack | src/sirc/sirc_parse.c:218-232 | nick, user and host of a prefix come back |
| Parsing.ServerHasNoOrigin | src/sirc/sirc_parse.c:218-232 | a prefix without an exclamation mark, or without an at sign, has no parts |
| Parsing.BlankParameters | src/sirc/sirc_parse.c:252-262 | blanks in place of parameters are one parameter that is missing |
| Parsing.TagsInFront | src/sirc/sirc_parse.c:108-112 | tags in front do not change what is read of the line |
| Delivery.EndToEnd | src/sirc/sirc_cmd.c:125-157 | the bytes sent, taken apart and read as C strings, are only messages to the channel, in UTF-8, whose texts add up to the message, with nothing left and no overflow; so are the bytes of a relay that passes the lines on with a prefix part of at most 50 bytes in front of each, and no line has more than 512 bytes |
| Ctcp.SendCtcp | src/sirc/sirc_cmd.c:215-241 | a request or response goes out as one line, cut at 512 bytes |
| Ctcp.UnwrapUndoesWrap | src/sirc/sirc_event_hdr.c:270-281 | a CTCP text is recognised and gives the command and the text |
| Ctcp.HandleCtcp | src/sirc/sirc_event_hdr.c:253-306 | the event has the text in the last place, and the message is afterwards what it was |
| Ctcp.HandleMessage | src/sirc/sirc_event_hdr.c:119-131 | messages and notices that look like CTCP, and no others, go to the CTCP handler |
| Ctcp.CtcpSurvives | src/sirc/sirc_cmd.c:215-241 | the line has PRIVMSG or NOTICE, the target, and the command and text between control characters; of the bytes that go out, that line is received, read as a C string, if and only if it has not been cut, and otherwise none; with a relay's prefix in front it is received as one line too; and it causes the event of the command and text that were sent, from nobody, or from the nick in front of a user and a host, or from a server's whole prefix |
| Ctcp.SecondDecides | src/sirc/sirc_event_hdr.c:119-131 | of three parameters it is the second that has to stand between control characters |
| Ctcp.OtherCommands | src/sirc/sirc_event_hdr.c:119-131 | no other command is taken for CTCP |
| Membership.SuiUserList.UpdateUser | src/sui/sui_user.c:98-143 | the row shows the present type and the counters move with it |
| Membership.SuiUserList.AddUser | src/sui/sui_user_list.c:115-121 | a row is added, the counters grow by the user, and neither list nor counters were set before |
| Membership.SuiUserList.RmUser | src/sui/sui_user_list.c:123-133 | the row goes, the counters shrink by what it showed, and list and counters are cleared |
| Membership.SrnChatUser.SetEntry | src/sui/sui_user.c:153-163 | list and counters are set and cleared in turn; the guards never fail |
| Membership.SrnChatUser.SetType | src/core/chat_user.c:52-58 | rows and counters agree with a recount after any change of type, joined or not |
| Membership.SrnChatUser.SetIsJoined | src/core/chat_user.c:60-70 | rows and counters agree with a recount after a join or a leave |
| Membership.RowsUpdate | src/sui/sui_user.c:104-135 | the histogram of the rows when one changes |
| Membership.RowsDelete | src/sui/sui_user_list.c:123-133 | the histogram of the rows when one goes |
| Membership.SrnServer.RowsAreTheJoined | src/sui/sui_user_list.c:115-139 | the rows are exactly the joined users with their types, and the counters are their histogram |
| Membership.SrnServer.CountersCount | src/sui/sui_user.c:98-143 | the counters are how many of the chat's users are joined and operators, administrators or owners, how many half-operators, how many voiced, and how many in all |
| Membership.SrnServerUser.Attach | src/core/server_user.c:52-68 | refuses a second chat user of a chat, and only that |
| Membership.SrnServerUser.Detach | src/core/server_user.c:70-80 | takes one link out |
| Membership.SrnChat.NewUser | src/core/chat_user.c:24-37 | both sides get the new chat user; the server user never refuses |
| Membership.SrnChat.AddUser | src/core/chat.c:111-128 | a server user is added once |
| Membership.SrnChat.UserOf | src/core/chat.c:148-162 | looking a server user up by nick finds its own chat user |
| Membership.SrnChat.AddAndGetUser | src/core/chat.c:130-133 | the chat user returned is the one of the server user, added if need be |
| Membership.SrnChat.Free | src/core/chat.c:73-84 | every chat user is taken from its server user, and nobody refers to the chat |
| Membership.SrnServer.LinkedShrinks | src/core/chat_user.c:39-44 | the graph is consistent after a chat is gone |
| Membership.SrnServer.SharedByBoth | src/core/server_user.c:41-80 | a chat user is in its chat's list if and only if it is in its server user's, and there is one for a chat and a server user |
| AsciiCase.SameNameIff | src/core/server.c:320-336 | names are the same if and only if they differ at most in the case of letters from A to Z |
| Membership.SrnServer.AddAndGetUser | src/core/server.c:365-383 | the table knows the user afterwards, and no other is touched |
| Membership.SrnServer.RenameLosesNobodyIff | src/core/server.c:389-397 | renaming keeps everybody in the table if and only if the nick is free or the user's own |
| Membership.SrnServer.RenameOntoAnother | src/core/server.c:389-397 | a server on which the program's user takes over a nick and its former owner stays in a chat and is in the table no more |
| Membership.SrnServer.TakeNickOf | src/core/server.c:389-397 | the same for every server and every other user who is in a chat |
| Membership.SrnServer.Rename | src/core/server.c:389-397 | the table, the graph and the lists stay consistent if and only if nobody else has the nick or who has it is in no chat; it succeeds if and only if nobody else has it; nobody in a chat is freed |
| Membership.SrnServer.NewChat | src/core/chat.c:37-71 | a new chat has the program's user, the anonymous one and a dialogue's target, and nobody has joined |
| Membership.SrnServer.AddChat | src/core/server.c:225-262 | adds a chat if and only if none of that name is listed; it is the server's own if there is none yet and it has the server's name, and otherwise a channel or a dialogue |
| Membership.SrnServer.Begin | src/core/app.c:275-283 | a new server with its own chat is in the state that every handler keeps |
| Membership.SrnServer.RmChat | src/core/server.c:297-318 | frees a listed chat that is not joined, and nothing else |
| Membership.SrnServer.SetIsOnline | src/core/server_user.c:109-124 | a user who goes offline leaves all chats and nobody else does |
| Membership.SrnServer.SetChatJoined | src/core/chat.c:91-109 | when the program leaves a chat everybody does, and other chats are not touched |
| Membership.SrnServer.OnJoin | src/core/app_irc_event.c:542-581 | the user is online and in the chat, which the program has joined if the user is the program; nobody else changes, nor the user in other chats, nor any other chat |
| Membership.SrnServer.OnPart | src/core/app_irc_event.c:583-619 | the user is in the chat no more, which is closed if the program left it; otherwise nobody else changes there, and nobody does in other chats |
| Membership.SrnServer.Depart | src/core/app_irc_event.c:600-618 | when the program leaves, the chat is closed |
| Membership.SrnServer.OnKick | src/core/app_irc_event.c:770-821 | who kicks is known in the chat and who is kicked is out; if it is the program, the chat is not joined any more, and everybody is out if it was or if nobody is in chats that are not joined; otherwise nobody else changes, and other chats do not |
| Membership.SrnServer.OnQuit | src/core/app_irc_event.c:497-540 | who quits is offline and in no chat, and nobody else changes |
| Membership.SrnServer.OnNick | src/core/app_irc_event.c:460-495 | the user is known by the new nick, everybody else by the old one, nobody in a chat is freed, and chats stay as they are |
| Membership.SrnServer.OnMode | src/core/app_irc_event.c:621-705 | who sets the mode is known in the chat, and the user it names has the type the mode gives; nobody joins, leaves, or changes otherwise |
| Membership.SrnServer.ModeLetters | src/core/app_irc_event.c:676-700 | +q, +a, +o, +h and +v make an owner, administrator, operator, half-operator and voiced user, and nothing else does |
| Membership.SrnServer.OnName | src/core/app_irc_event.c:1618-1680 | the user is online and in the chat with its type, and nobody else changes |
| Membership.SrnServer.OnPrivmsg | src/core/app_irc_event.c:850-880 | the sender is known in the dialogue with it, which is open then, or, for a service without one, in the server's chat; nothing else changes |
| Membership.SrnServer.OnWelcome | src/core/app_irc_event.c:376-400 | the program's user has the nick it was given, and nobody else changes |
| Membership.SrnServer.OnChannel | src/core/app_irc_event.c:735-768 | who speaks in a chat or changes its topic is known there, and whoever was known still is; nobody joins or leaves, and other chats do not change |
| Membership.SrnServer.OnInvite | src/core/app_irc_event.c:987-1026 | who invites is known in the chat if it is open, or else in the dialogue with it, which is open then; nothing else changes |
| Membership.SrnServer.OnNumeric | src/core/app_irc_event.c:1524-1535 | the sender of a reply is known in the server's chat, and in the chat the reply is about; nothing else changes |
| Membership.SrnServer.OnDisconnect | src/core/app_irc_event.c:299-348 | when the stream has ended no chat is joined any more and nobody is in one |
| Membership.SrnServer.Free | src/core/server.c:92-110 | every user's list is empty when the user is freed |
| Connection.EveryRunAgrees | src/core/server_state.c:54-250 | in every run of user actions, timers, completions and removal no attempt overlaps another, no missing stream is closed, no end of a stream is refused, and removal is asked for only after a QUIT and with the session idle; a server that is registered has a stream |
| Connection.StepAgrees | src/core/server_state.c:54-250 | every event keeps state and session in agreement: attempt, stream and timer are there just when the state says so |
| Connection.TransformedFits | src/core/server_state.c:69-217 | every action finds the session the state promises and leaves it so |
| Connection.ConnectComesTo | src/core/server_state.c:69-217 | CONNECT starts an attempt when the server is down or waits to reconnect, and nothing otherwise |
| Connection.ReconnectComesTo | src/core/server_state.c:69-217 | RECONNECT starts an attempt when the server is down, closes the stream of a connected one, which stays connected, and does nothing otherwise |
| Connection.DisconnectComesTo | src/core/server_state.c:69-217 | DISCONNECT cancels an attempt, closes the stream, or stops the timer, and nothing otherwise |
| Connection.QuitComesTo | src/core/server_state.c:69-217 | QUIT asks for the removal, with the timer stopped, when nothing is under way, cancels an attempt, or waits for the end of the stream |
| Connection.FailureComesTo | src/core/server_state.c:95-178 | a failed attempt arms a timer, or asks for the removal after a QUIT |
| Connection.SuccessComesTo | src/core/server_state.c:100-105 | a successful attempt leaves a stream, with the interval at 5 seconds |
| Connection.EndComesTo | src/core/server_state.c:136-189 | the end of a stream arms a timer, unless the user asked for it, and asks for the removal after a QUIT |
| Connection.TimerComesTo | src/core/server_state.c:294-302 | a reconnect timer adds 5 seconds and connects a server that is down or waits |
| Connection.PingComesTo | src/core/app_irc_event.c:2128-2138 | a ping timer closes the stream of a connected server, and connects one that is down |
| Connection.LostStreamReconnects | src/core/server_state.c:136-140 | a connected server that loses its stream waits, and its timer connects |
| Connection.ReconnectReconnects | src/core/server_state.c:127-140 | after RECONNECT or a ping timeout the stream is closed, the server stays connected until it has ended, and then waits, and its timer connects |
| Connection.FailedAttemptReconnects | src/core/server_state.c:95-99 | so does a server whose attempt fails |
| Connection.DisconnectEnds | src/core/server_state.c:123-166 | after DISCONNECT the stream is closed, and its end leaves the server down without a new timer |
| Connection.QuitEnds | src/core/server_state.c:132-189 | after QUIT the end of the stream asks for the removal |
| Connection.DisconnectingEndsIff | src/core/server_state.c:147-168 | a server leaves the disconnecting state in some run if and only if there is a stream |
| Connection.CancelledAttemptIsStuck | src/core/server_state.c:147-168 | the run in which the failure of a cancelled attempt is refused and the server stays disconnecting |
| Connection.ConnectsAgainIff | src/core/server_state.c:90-217 | after an accepted DISCONNECT or QUIT the program can connect again unasked, of a server that welcomes it once in a connection, if and only if the call leaves an older reconnect or ping timer armed and a way down; of any server if and only if that, or there is a stream over which it can welcome the program twice |
| Connection.CarefulUse | src/core/server_state.c:294-302 | without connecting by hand while reconnecting, and with a server that welcomes once in a connection, a reconnect timer is armed just in that state, a ping timer just while it is known, and DISCONNECT and QUIT are final |
| Connection.HastyUserIsReconnected | src/core/server_state.c:196-201 | the run in which the old timer connects again |
| Connection.SecondWelcomeReconnects | src/core/app_irc_event.c:393-396 | the run in which a ping timer that a second welcome left connects after a DISCONNECT |
| Connection.RemovalFindsIdleIff | src/core/server_state.c:304-313 | when a removal comes the session is idle if and only if the server is down, waits to reconnect, or is stuck without an attempt |
| Connection.BusyRemovalIff | src/core/server_state.c:304-313 | between being asked for and coming, the removal of a server that is down can be overtaken by an attempt if and only if a reconnect or ping timer is armed |
| Connection.StreamAfter | src/core/app_irc_event.c:299-332 | only its end takes a stream away |
| ServerMachine.SrnServer.Transform | src/core/server_state.c:54-250 | an action is accepted and carried out as the table has it, or changes nothing |
| ServerMachine.SrnServer.SircConnect | src/sirc/sirc.c:148-162 | one more attempt, not cancelled |
| ServerMachine.SrnServer.SircDisconnect | src/sirc/sirc.c:171-176 | the stream is being closed |
| ServerMachine.SrnServer.OnReconnectTimeout | src/core/server_state.c:294-302 | the timer is used up, the interval grows, and a connection is asked for |
| ServerMachine.SrnServer.OnPingTimeout | src/core/app_irc_event.c:2128-2138 | the timer is used up, the known one forgotten, and a reconnection asked for |
| ServerMachine.SrnServer.OnWelcome | src/core/app_irc_event.c:390-396 | the server is registered and knows a new ping timer, and an older one keeps running |
| ServerMachine.SrnServer.OnConnectFinish | src/sirc/sirc.c:373-384 | the attempt becomes a stream before the state machine hears of it |
| ServerMachine.SrnServer.OnConnectFail | src/sirc/sirc.c:386-396 | the attempt is gone before the state machine hears of it |
| ServerMachine.SrnServer.OnDisconnect | src/core/app_irc_event.c:299-332 | the stream and the ping timer are gone, and the server is not registered |
| ServerMachine.SrnServer.Handle | src/core/app_irc_event.c:171-332 | one turn of the main loop is one step of the model, and keeps state and session in agreement |
| Client.SrnClient.constructor | src/core/app.c:275-283 | a new client has a fresh connection and chats in which nobody is, and nothing of it was there before |
| Client.SrnClient.Receive | src/core/app_irc_event.c:460-880 | each message does what it says, to whom it names and in the chat it names, and leaves everything else alone; session, state, chats, users and presence stay in agreement |
| Client.SrnClient.Turn | src/core/app_irc_event.c:299-348 | every turn of the main loop keeps the agreement, leaves the chats as they are, and after the end of the stream no chat is joined |
| Client.SrnClient.OpenChat | src/core/app_ui_event.c:309-326 | opening a chat keeps the agreement; the chat is there afterwards, and the others are as they were |
| Client.SrnClient.CloseChat | src/core/app_ui_event.c:289-338 | closing one keeps the agreement; it goes unless it is joined, and the others stay |
| Client.SrnClient.Happen | src/core/app_irc_event.c:171-880 | a message that may come does what it says, and one that may not does nothing; an event that is possible is one step of the connection |
| Client.SrnClient.Run | src/core/app_irc_event.c:171-880 | every sequence of these, in any order, keeps the agreement, and takes the connection through a run of the state machine |
| Client.RunFromStart | src/core/app_irc_event.c:171-880 | a new client after any sequence of these is registered or in a chat only with a stream, and who is joined is online |
| Client.SrnClient.Presence | src/core/app_irc_event.c:299-348 | there is a stream if the server is registered or a chat is joined, and who is joined is online |
| InputHistory.KeptIsLastTen | src/sui/sui_buffer.c:565-588 | the history is the last ten lines sent, consecutive repeats counted once |
| InputHistory.BackAndForth | src/sui/sui_buffer.c:344-384 | any number of steps back and forward shows the line so many from the end, and the draft when all are undone |
| InputHistory.SuiBuffer.BrowsePrevious | src/sui/sui_buffer.c:344-364 | one step back; the draft is the last node just while browsing |
| InputHistory.SuiBuffer.BrowseNext | src/sui/sui_buffer.c:366-384 | one step forward, or the end of browsing |
| InputHistory.SuiBuffer.PushHistory | src/sui/sui_buffer.c:565-588 | the history follows what was sent, also while browsing |
| InputHistory.SuiBuffer.Send | src/sui/sui_buffer.c:296-342 | the line sent holds no line end, and the text was that line, or it, a line end and what is left; an empty line is skipped |

## Left out

- The pattern renderer and the filters: they replace or drop text as the user's own expressions say. `Pipeline.SrnMessage.Render` requires that the pattern flag is not set.
- GLib's markup syntax: markup is a sequence of tags and characters, so escaping, entities, and the normalisation of line ends are not modelled.
- Regular expressions, for URLs, mentions, channel and server names: they are parameters.
- Rendering of bytes that are not UTF-8, and transcoding of received messages.
- The nick and the icon in the rows of a user list, and the order the list store sorts them in: rows hold the user and its type.
- A chat user's `SuiUser`: its fields are fields of `Membership.SrnChatUser`.
- `srn_chat_rm_user` and `srn_server_rm_user`, which nothing calls.
- Configuration, logging, messages shown for events, automatic commands of a new chat, the current chat, ignored users, real names and host names.
- TOPIC, messages, notices and CTCP requests to a channel are all `Membership.SrnServer.OnChannel`, those to the program `OnPrivmsg`; a reply that somebody is away is a numeric reply followed by `OnPrivmsg`, and the message of a welcome is a welcome followed by a numeric reply. Messages that change nothing about who is where are not received in `Client`.
- Capability negotiation, authentication, alternate nicks, and the rejoining of channels.
- Command lines, their quoting, and completion.
- Failed or partial writes, lines longer than the receive buffer, malformed tag sections.
- Events of a server that has been removed from the application.
- Times: when a timer fires is not modelled, only whether it may.
- Colours of blink and reverse: the source opens no tag for them, and the model gives them no style.
- Membership.SrnServer.OnNick: leaves out a nick that a user in a chat has, and nicks that differ from a known one in ASCII case only; `Rename` and `TakeNickOf` say what the former does.
- Membership.SrnServer.OnWelcome: leaves out the same nicks.
- Ctcp.HandleMessage: leaves out the other events, and an empty last parameter behind a CTCP one.
- Sending.Session.SendMsg: the loop is followed for a given number of turns, as it may not end; by `OutcomeSettles` any number that is enough gives the same.
- Framing.Receiver.OnByte: requires room for the byte; what happens behind the end of the buffer is not defined.
- Framing.Receiver.Receive: requires lines that fit the buffer, for the same reason.
- Tags.CountedTagsAreFilled: leaves out sections in which a backslash stands before a semicolon or the last blank, where counting and reading part.
- Tags.ReadSection: leaves out the same sections.
- Parsing.SircMessage.Parse: leaves out lines with such a section.
- Ctcp.HandleCtcp: leaves out an empty last parameter, which is no CTCP text.
- Membership.SrnServer.AddAndGetUser: leaves out a nick that differs from a known one in ASCII case only; so do the members below.
- Membership.SrnServer.NewChat: the same for a dialogue's name.
- Membership.SrnServer.AddChat: the same for a dialogue's name.
- Membership.SrnServer.Rename: leaves out a nick that differs from a known one in ASCII case only.
- Membership.SrnServer.OnJoin: an origin that is new, or known as it is spelled.
- Membership.SrnServer.OnMode: an origin and an argument that are new, or known as they are spelled.
- Membership.SrnServer.OnName: a nick that is new, or known as it is spelled.
- Membership.SrnServer.OnPrivmsg: an origin that is new, or known as it is spelled.
- Membership.SrnServer.OnKick: an origin that is new, or known as it is spelled.
- Membership.SrnServer.OnChannel: an origin that is new, or known as it is spelled.
- Membership.SrnServer.OnInvite: an origin that is new, or known as it is spelled.
- Membership.SrnServer.OnNumeric: an origin that is new, or known as it is spelled.
