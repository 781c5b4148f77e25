# mtj.jibber dispatcher, formatters and presence handlers in Dafny

This project models the core of mtj.jibber, an XMPP multi-user-chat bot
framework. The model has four parts.

- **`MucChatBot` (mtj/jibber/jabber.py)** is the dispatcher. It keeps these tables:
  - the handler objects by alias;
  - the private commands, commands, listeners and commentators, in registration order;
  - the timer table, keyed by (alias, method);
  - the bounded commentary window.

  It rebuilds the tables from package descriptors and arms timers on the client's scheduler. It runs the four dispatch paths for an inbound message, and it normalises a handler's reply (a string, a dictionary or a list) into calls of `send_message`, which tells HTML from plain text.
- **`strip_tags` (mtj/jibber/utils.py)** is the tag remover used for HTML replies.
- **`FakeActions.do_things` and `Fortune.fortune` (mtj/jibber/bot.py)** are the bundled reply formatters.
- **`Muc` (mtj/jibber/presence.py)** holds the presence handlers: rejoining a room the bot was removed from, and greeting chosen occupants.

Modules, one file each:

| module | file | models |
|---|---|---|
| `Common` | common.dfy | `Option`, `Result`, the Python exceptions that escape, a match's groups |
| `Markup` | markup.dfy | `strip_tags` as a left-to-right scan |
| `Replies` | replies.dfy | `send_message` and the string/dict/list fan-out of `send_package_method`, as functions |
| `Tables` | tables.dfy | the package descriptors and the pure rules for which entries are accepted, and how timers are read and overwritten |
| `Transport` | transport.dfy | the client: a scheduler that refuses a duplicate name, and the logs of sends and room joins |
| `Dispatch` | dispatch.dfy | one dispatch pass as a function of the tables, the handlers and the regex semantics, and the properties of the passes |
| `Jabber` | jabber.dfy | `class MucChatBot`, whose methods update its tables and its client and are proved against `Replies`, `Tables` and `Dispatch` |
| `Formatters` | formatters.dfy | `do_things` and `fortune` |
| `Presence` | presence.dfy | `class Muc`, its rejoin decision and its greeter |

Python exceptions become `Result`/`Option<Exc>` values. Some behaviour is left abstract and passed in as parameters:
- **`Body`:** what a handler method returns or raises.
- **`Patterns`:** whether a pattern compiles, and its first match in a body, after `%(nickname)s` is rendered.
- **`Render`:** the `%` formatting of the greeting.

`random.randint` becomes an arbitrary choice inside the range.

## Model

| member | source | states |
|---|---|---|
| `Markup.StripTagsOrNone` | mtj/jibber/utils.py:17-20 | `None` gives `None`; a string gives a string no longer than the input |
| `Markup.StripTagsNoTag` | mtj/jibber/utils.py:20 | text with no '<' followed later by a '>' is returned unchanged |
| `Markup.StripTagsChangesTagged` | mtj/jibber/utils.py:20 | text holding such a tag is always changed, so the identity holds exactly on tag-free text |
| `Markup.StripTagsChars` | mtj/jibber/utils.py:20 | every character of the result occurs in the input |
| `Markup.StripTagsLeavesNoTag` | mtj/jibber/utils.py:20 | the result never holds a '<' with a '>' after it |
| `Markup.StripTagsIdempotent` | mtj/jibber/utils.py:20 | stripping twice is stripping once |
| `Markup.StripTagsSubsequence` | mtj/jibber/utils.py:20 | the result is the input with some characters deleted |
| `Markup.StripTagsPlainPrefix` | mtj/jibber/utils.py:20 | a prefix without '<' passes through and the rest is stripped on its own |
| `Markup.StripTagsLeadingTag` | mtj/jibber/utils.py:20 | a leading `<t>` whose `t` has no '>' is dropped whole, up to the first '>' |
| `Markup.StripTagsSpan` | mtj/jibber/utils.py:20 | a span `<t>` after tag-free text is removed and nothing else in front of the rest changes |
| `Markup.StripTagsTwoSpans` | mtj/jibber/utils.py:11-12 | `a<t1>w<t2>` becomes `aw`, the shape of the doctest `test <b>string</b>` → `test string` |
| `Markup.DocTestNone` | mtj/jibber/utils.py:7-8 | doctest: `None` maps to `None` |
| `Markup.DocTestPlain` | mtj/jibber/utils.py:9-10 | doctest: `test string` is unchanged |
| `Markup.DocTestSingleTag` | mtj/jibber/utils.py:13-14 | doctest: `<test string>` becomes the empty string |
| `Replies.SendMessage` | mtj/jibber/jabber.py:401-412 | a body opening with `<p>`, `<html>` or `<!` goes as `mhtml` with a tag-free `mbody`; any other body goes as `mbody` with no `mhtml`; `mto` and the extra kwargs pass through; an extra `mbody`/`mhtml` is a TypeError |
| `Replies.SendResponse` | mtj/jibber/jabber.py:368 | `send_message(**response)` without `raw` or `mto`, or with a `self` key (bound twice against `send_message(self, raw, mto, **kwargs)`, jabber.py:401), is a TypeError; otherwise the send goes to `response['mto']` with every other key passed through |
| `Replies.TextSend` | mtj/jibber/jabber.py:385-386 | a string reply when the caller's kwargs already hold `raw` is a TypeError |
| `Replies.Normalize` | mtj/jibber/jabber.py:385-391 | None or any other object sends nothing; a string or a dictionary gives exactly one send or one exception |
| `Replies.ListSends` | mtj/jibber/jabber.py:389-391 | a list never gives more sends than it has entries |
| `Replies.ListSendsStep` | mtj/jibber/jabber.py:360-391 | one list entry from the front: a non-dict is skipped, a failing dict send stops the list, a good one is sent before the rest |
| `Replies.ListSendsPrefix` | mtj/jibber/jabber.py:389-391 | each send of a list is the send of the dictionary entry at the same position among the dictionary entries |
| `Replies.ListSendsCount` | mtj/jibber/jabber.py:389-391 | without a failure there are exactly as many sends as dictionary entries |
| `Replies.ListSendsPerDict` | mtj/jibber/jabber.py:360-391 | without a failure: one send per dictionary entry, in order, each being that entry merged over the caller's kwargs |
| `Replies.ListSendsFailure` | mtj/jibber/jabber.py:368-391 | a failing list stopped at the dictionary entry just after the sends it made |
| `Replies.ListSendsStopsAtFailure` | mtj/jibber/jabber.py:368-391 | a failing list made exactly the sends of the entries before the failing one, and that entry's send raised the error |
| `Replies.ListSendsIgnoresNonDict` | mtj/jibber/jabber.py:361-364 | non-dictionary entries, None included, make no difference to a list reply |
| `Replies.DictOverrides` | mtj/jibber/jabber.py:365-367 | a dictionary reply's entries win over the caller's kwargs, the caller's other kwargs are kept, and nothing else is added |
| `Replies.TextUsesCallerKwargs` | mtj/jibber/jabber.py:385-386 | when the caller's kwargs hold `mto` and none of `raw`, `self`, `mbody`, `mhtml`, a string reply is one send to the caller's `mto`, with the caller's other kwargs |
| `Replies.EmptyTextSentButFalsy` | mtj/jibber/jabber.py:385-386 | an empty string is still sent, yet is falsy, so it does not count as a match |
| `Tables.AcceptedTriggers` | mtj/jibber/jabber.py:148-179 | the accepted entries are never more than the configured ones |
| `Tables.AcceptedTriggersExactly` | mtj/jibber/jabber.py:148-179 | a trigger is registered iff some entry is a pair whose pattern compiles (raw for private commands, rendered with the nickname for commands) and gives that trigger |
| `Tables.CommentatorTriggers` | mtj/jibber/jabber.py:201-206 | commentators are unvalidated: every two-element entry is kept in order, and the first entry that is a list of another length raises a ValueError after the ones before it were kept |
| `Tables.Lookup` | mtj/jibber/jabber.py:261 | a key is found iff it is in the table, and what is found is its entry |
| `Tables.LookupAt` | mtj/jibber/jabber.py:261 | with distinct keys every entry is what its key looks up |
| `Tables.PutTimer` | mtj/jibber/jabber.py:237-245 | `timers[key] = spec`: a present key keeps its position, a new key goes last, and the key set grows by the key alone |
| `Tables.PutTimerLookup` | mtj/jibber/jabber.py:237-245 | after a put the key maps to the new spec and every other key keeps its own |
| `Tables.PutTimerDistinct` | mtj/jibber/jabber.py:237-245 | a put keeps the keys distinct |
| `Tables.ParseSeconds` | mtj/jibber/jabber.py:237-253 | an int `n` is the fixed delay `n` (a bool is 0 or 1); a value is read as a range exactly when it is a two-element list of ints, and then `[x, y]` is the range from `x` to `y`; text and other values are dropped |
| `Tables.IntValue` | mtj/jibber/jabber.py:237-243 | `isinstance(v, int)` holds for ints and bools only |
| `Tables.AddSchedule` | mtj/jibber/jabber.py:233-236 | `setup_schedule` raises exactly when some entry lacks `seconds` or `method`, and then a KeyError |
| `Tables.AddScheduleLookup` | mtj/jibber/jabber.py:233-253 | after `setup_schedule` a key of the package holds the spec of the last accepted entry for its method, among the entries before the first incomplete one; other keys are untouched; keys stay distinct |
| `Tables.AddTimers` | mtj/jibber/jabber.py:227-236 | `setup_timers` raises exactly when some group lacks `schedule` or holds a `package` or `self` key, parameters of `setup_schedule` bound twice (a TypeError), or some entry of a group lacks `seconds` or `method` (a KeyError); a first such group changes nothing |
| `Tables.PutTimerEntries` | mtj/jibber/jabber.py:238-238 | `timers[key] = spec` adds no entry other than the new one |
| `Tables.AddScheduleKwargs` | mtj/jibber/jabber.py:233-245 | every timer `setup_schedule` puts carries the group's remaining keys as its kwargs |
| `Tables.AddTimersNoBoundKeys` | mtj/jibber/jabber.py:230-233 | no timer put by `setup_timers` carries a `package` or `self` keyword |
| `Tables.AddTimersDistinct` | mtj/jibber/jabber.py:227-231 | `setup_timers` keeps the timer keys distinct |
| `Tables.ListenerEntries` | mtj/jibber/jabber.py:186-188 | every listener name becomes one entry under the alias, in order |
| `Tables.LastDot` | mtj/jibber/jabber.py:119 | `rsplit('.', 1)` cuts at the last '.', and there is none iff the unpacking fails |
| `Tables.AddPackage` | mtj/jibber/jabber.py:118-146 | a descriptor without `kwargs` is a TypeError that changes nothing; a path without a dot or with an empty module part is a ValueError, and a module part starting with a dot (a relative import) a TypeError, each changing nothing; otherwise a package raises only TypeError (not a class, or a malformed timer group), ValueError, ImportError, AttributeError or KeyError; the trigger lists only grow at their end; timer keys stay distinct |
| `Tables.AddPackages` | mtj/jibber/jabber.py:112-113 | the packages in order keep the timer keys distinct |
| `Transport.IsScheduled` | tests/test_testclient.py:32-38 | a name is scheduled iff some waiting occurrence has it |
| `Transport.RemoveFirst` | mtj/jibber/jabber.py:78-80 | removing a name nobody holds changes nothing |
| `Transport.RemoveFirstAt` | mtj/jibber/jabber.py:78-80 | removing a held name drops one occurrence with that name and shifts the rest down |
| `Transport.RemoveFirstNames` | mtj/jibber/jabber.py:78-80 | with distinct names, removal removes exactly that name and keeps names distinct |
| `Transport.AppendFreshName` | tests/test_testclient.py:32-38 | appending under a fresh name keeps names distinct and adds just that name |
| `Transport.Client.constructor` | tests/test_testclient.py:32-36 | a new client has nothing scheduled, sent or joined |
| `Transport.Client.Schedule` | tests/test_testclient.py:32-38 | `schedule` is refused exactly when the name is already waiting; otherwise one occurrence is appended and logged; occurrences of other names are kept |
| `Transport.Client.Remove` | mtj/jibber/jabber.py:78-80 | `remove` reports a missing name (the ValueError) and otherwise drops exactly that name; occurrences of other names are kept |
| `Transport.RemoveFirstKeeps` | mtj/jibber/jabber.py:78-80 | removing a name keeps every occurrence of another name |
| `Transport.WithoutIn` | mtj/jibber/jabber.py:75-79 | filtering by names keeps exactly the occurrences whose name is not among them |
| `Transport.WithoutConcat` | mtj/jibber/jabber.py:75-79 | filtering a concatenation filters each part |
| `Transport.WithoutWithout` | mtj/jibber/jabber.py:75-79 | filtering by one set of names and then another is filtering by their union |
| `Transport.RemoveFirstIsWithout` | mtj/jibber/jabber.py:78-80 | with distinct names, removing a name is filtering the scheduler by it |
| `Transport.WithoutKeeps` | mtj/jibber/jabber.py:75-79 | filtering by names keeps every occurrence of any other name |
| `Transport.KeepsThen` | mtj/jibber/jabber.py:93-116 | two changes that each keep the occurrences outside their names keep those outside both |
| `Transport.WithoutNone` | mtj/jibber/jabber.py:75-79 | filtering by names no occurrence has changes nothing |
| `Transport.Client.SendMessage` | mtj/jibber/jabber.py:411-412 | one client send appends one record and changes nothing else |
| `Transport.Client.JoinMuc` | mtj/jibber/presence.py:63-72 | one room join appends one record and changes nothing else |
| `Dispatch.Invoke` | mtj/jibber/jabber.py:370-383 | the handler lookup is outside the `try`: a missing alias is a KeyError, a missing method an AttributeError, both escaping; only the body's own exception is caught |
| `Dispatch.PackageMethodSpec` | mtj/jibber/jabber.py:359-399 | a raising handler gives None with no send and no re-arm; a failed lookup escapes; otherwise the reply is fanned out; a call that does not raise re-arms its timer exactly when it has one and returns the raw reply; any send, any re-arm and any non-None result imply the handler replied, and a re-arm implies the fan-out raised nothing |
| `Dispatch.StepRun` | mtj/jibber/jabber.py:301-304 | one call is one called index, and counts as answered only with a truthy result |
| `Dispatch.AppliedStep` | mtj/jibber/jabber.py:359-399 | what one call did to the client (sends, re-arm or failed re-arm) is the effect its run describes: occurrences of other names kept, and a re-armed key's occurrence fitting its spec and running it with its kwargs |
| `Dispatch.AppliedThen` | mtj/jibber/jabber.py:287-304 | the effects of consecutive calls compose, including which occurrences are kept and how the re-armed ones were armed |
| `Dispatch.KeptThen` | mtj/jibber/jabber.py:287-304 | across two consecutive calls, occurrences of names neither touched are kept, and every re-armed key's occurrence is one armed from its spec |
| `Dispatch.AppliedDone` | mtj/jibber/jabber.py:287-304 | a pass that ends without a failed re-arm has the effect of the calls it made |
| `Dispatch.FirstUnarmable` | mtj/jibber/jabber.py:115-116 | the index at which arming the table in order first raises: every earlier entry arms, that one fails, and it is past the end exactly when all arm |
| `Dispatch.FirstUnarmableAt` | mtj/jibber/jabber.py:115-116 | an index whose predecessors all arm and which fails is the first failing index |
| `Dispatch.SlotAt` | mtj/jibber/jabber.py:292-299 | a trigger's pattern fails to compile, does not match, or its handler is called |
| `Dispatch.Slots` | mtj/jibber/jabber.py:287-299 | one slot per trigger, in registration order |
| `Dispatch.Matching` | mtj/jibber/jabber.py:297-299 | the matching indices are indices of triggers whose handler would be called |
| `Dispatch.CappedRunCap` | mtj/jibber/jabber.py:286-304 | at most `commands_max_match` handlers answer truthily per message; every counted answer is truthy; nothing runs once the cap is reached |
| `Dispatch.CappedRunStopsAtCap` | mtj/jibber/jabber.py:288-304 | once the cap is reached no further handler is called: the last call is the one that reached it |
| `Dispatch.CappedRunCallsAllMatching` | mtj/jibber/jabber.py:287-304 | below the cap and without an exception, every matching command is called in order; falsy answers do not stop the pass |
| `Dispatch.FirstRunAtMostOne` | mtj/jibber/jabber.py:334-353 | at most one commentator answers per message, and it is the last one called, with a truthy reply; with none answering, every matching commentator was called |
| `Dispatch.EveryRunCallsAllMatching` | mtj/jibber/jabber.py:273-280 | private commands have no cap: without an exception every matching entry is called |
| `Dispatch.ListenerRunCallsAll` | mtj/jibber/jabber.py:311-322 | what a listener's body returns or raises makes no difference; without a failed lookup every listener is called, in order |
| `Jabber.ArmedOnce` | mtj/jibber/jabber.py:255-268 | after `register_timer` the key has exactly one waiting occurrence, last, with a delay that fits the spec (a range gives lo ≤ d ≤ hi) |
| `Jabber.WindowBounded` | mtj/jibber/jabber.py:108 | the commentary deque never exceeds `commentary_qsize`, ends with the newest reply and keeps the newest old entries, oldest dropped first |
| `Jabber.MucChatBot.constructor` | mtj/jibber/jabber.py:91-99 | a bot loaded with no packages and the default settings: empty tables, the defaults 1 and 2, and an empty window |
| `Jabber.MucChatBot.SendMessage` | mtj/jibber/jabber.py:401-412 | exactly one client send, the one `Replies.SendResponse` describes, or an exception and no send; the scheduler is untouched |
| `Jabber.MucChatBot.SendReply` | mtj/jibber/jabber.py:385-391 | the sends and the exception are those of `Replies.Normalize` |
| `Jabber.MucChatBot.SendList` | mtj/jibber/jabber.py:360-391 | the loop over a list reply makes the sends of `Replies.ListSends`, in order, and stops at its exception |
| `Jabber.MucChatBot.RegisterTimer` | mtj/jibber/jabber.py:255-268 | an unknown key is a KeyError and an empty range a ValueError, both after the removal; otherwise the key is re-armed once (`ArmedWith`), its occurrence fitting its spec and running it with its kwargs, and one schedule call is logged; occurrences of other names are kept |
| `Jabber.MucChatBot.ClearTimers` | mtj/jibber/jabber.py:69-82 | the scheduler becomes the old one with every timer key's occurrence filtered out, missing ones ignored, the other occurrences kept as they were and in order; the timer table is emptied; nothing else changes |
| `Jabber.ClearStep` | mtj/jibber/jabber.py:75-79 | one more removal in the `clear_timers` loop extends the filter by that key's name |
| `Jabber.MucChatBot.SetupPrivateCommands` | mtj/jibber/jabber.py:148-161 | appends exactly `Tables.AcceptedTriggers` with raw patterns |
| `Jabber.MucChatBot.SetupCommands` | mtj/jibber/jabber.py:163-179 | appends exactly `Tables.AcceptedTriggers` with patterns rendered against the nickname |
| `Jabber.MucChatBot.SetupListeners` | mtj/jibber/jabber.py:181-188 | appends every listener name, unchecked |
| `Jabber.MucChatBot.SetupCommentators` | mtj/jibber/jabber.py:190-206 | appends the pairs of `Tables.CommentatorTriggers`, raising its ValueError |
| `Jabber.MucChatBot.SetupSchedule` | mtj/jibber/jabber.py:233-253 | the timer table and the KeyError are those of `Tables.AddSchedule` of the old table, keys kept distinct |
| `Jabber.MucChatBot.SetupTimers` | mtj/jibber/jabber.py:208-231 | the timer table and the exception are those of `Tables.AddTimers` of the old table |
| `Jabber.MucChatBot.SetupPackage` | mtj/jibber/jabber.py:118-146 | the tables become those of `Tables.AddPackage`, with its error |
| `Jabber.MucChatBot.SetupPackages` | mtj/jibber/jabber.py:84-116 | reload is not additive: defaults 1 and 2 are read; every table is emptied and every timer's occurrence removed; a size ≤ 0 is a ValueError with empty tables; missing `packages` is a TypeError; on these and on a package's error the scheduler is the old one with the old timers filtered out and nothing is scheduled; the tables become those of the packages alone; each timer is armed once, in table order, its waiting occurrence fitting its spec and running it with its kwargs, and when one cannot be armed the keys before it are scheduled that way and it is not; every occurrence whose name is neither an old nor a new timer's (a pending rejoin, say) is kept whole |
| `Jabber.MucChatBot.ResetTables` | mtj/jibber/jabber.py:91-108 | the first half of `setup_packages`: empty tables, the scheduler filtered of the old timers' occurrences, and the ValueError for a size that is not positive |
| `Jabber.MucChatBot.ResetSettings` | mtj/jibber/jabber.py:91-108 | the cap and size with defaults 1 and 2; a fresh empty window of that size, or a ValueError |
| `Jabber.MucChatBot.LoadPackages` | mtj/jibber/jabber.py:110-116 | the packages in order, then (if none raised) every timer armed once; a package's error leaves the scheduler alone, and an arming failure leaves the keys before it scheduled; each armed key's occurrence fits its spec and runs it with its kwargs, and occurrences of other names are kept |
| `Jabber.MucChatBot.SetupPackageList` | mtj/jibber/jabber.py:112-113 | the package loop, stopped by the first exception |
| `Jabber.MucChatBot.RegisterAllTimers` | mtj/jibber/jabber.py:115-116 | every timer key is scheduled once, in table order, unless a range cannot be drawn from (a ValueError); then exactly the keys before the first such one were scheduled, and that one's occurrence is removed; each armed key's occurrence fits its spec and runs it with its kwargs; occurrences of names outside the armed keys are kept |
| `Jabber.MucChatBot.ArmAt` | mtj/jibber/jabber.py:255-268 | arming a key of the table fails only for an empty range, and then schedules nothing and removes that key's occurrence; on success the key's occurrence fits its spec and runs it with its kwargs; other names' occurrences are kept |
| `Jabber.MucChatBot.SendPackageMethod` | mtj/jibber/jabber.py:359-399 | the result and the effect on the client are those of `Dispatch.PackageMethod` |
| `Jabber.MucChatBot.TrySlot` | mtj/jibber/jabber.py:291-304 | one trigger is tried exactly as its `Dispatch.SlotAt` says; an unmatched one leaves the client as it was |
| `Jabber.MucChatBot.RunCommand` | mtj/jibber/jabber.py:282-304 | nothing for the bot's own messages; otherwise the sends, re-arms and exception of `Dispatch.CappedRun` under `commands_max_match`, replying into the room as groupchat |
| `Jabber.MucChatBot.CommandPass` | mtj/jibber/jabber.py:286-304 | the loop with its `matched` counter is `Dispatch.CappedRun` |
| `Jabber.MucChatBot.RunPrivateCommand` | mtj/jibber/jabber.py:270-280 | nothing unless the type is `chat`; otherwise every matching private command, uncapped, replying to the sender (`Dispatch.EveryRun`) |
| `Jabber.MucChatBot.PrivatePass` | mtj/jibber/jabber.py:273-280 | the loop is `Dispatch.EveryRun` |
| `Jabber.MucChatBot.RunListener` | mtj/jibber/jabber.py:306-322 | nothing for the bot's own messages; otherwise the listeners called and the escaping lookup error are those of `Dispatch.ListenerRun` |
| `Jabber.MucChatBot.RunCommentator` | mtj/jibber/jabber.py:324-353 | nothing for an echo of the bot's own recent commentary; otherwise `Dispatch.FirstRun`'s effect, and its one truthy raw reply is appended to the bounded window |
| `Jabber.MucChatBot.CommentPass` | mtj/jibber/jabber.py:334-353 | the loop, ended by the first truthy reply, is `Dispatch.FirstRun` and returns that reply |
| `Dispatch.TimerStepSpec` | mtj/jibber/jabber.py:355-399 | a timer keyword `self`, `package` or `method` binds a parameter of `send_package_method` twice: a TypeError with no call, no send and no re-arm; otherwise the handler receives exactly the timer's `msg` and `match` entries, which a string reply's sends never carry while every other keyword reaches them, and the timer is re-armed exactly when it is in the table, its handler replied and the fan-out raised nothing |
| `Jabber.MucChatBot.RunTimer` | mtj/jibber/jabber.py:355-357 | a fired timer is `send_package_method(alias, method, **kwargs)`: a TypeError for a keyword bound twice, else the handler is called with the popped `msg`/`match` and replies with the other kwargs; result and client effect are those of `Dispatch.TimerStep` |
| `Jabber.MucChatBot.FireTimer` | mtj/jibber/jabber.py:264-268 | the scheduler drops a one-shot timer occurrence and runs it; the key waits again exactly when its handler replied and re-arming succeeded, then fitting its spec; a raising handler, or a timer keyword bound twice, leaves it unscheduled; other names' occurrences are kept |
| `Formatters.StripPunctuation` | mtj/jibber/bot.py:8-17 | the kept text is a prefix, all that is dropped is punctuation, and what is kept does not end in punctuation |
| `Formatters.StripActionCut` | mtj/jibber/bot.py:8-17 | the substitution cuts at the start of the maximal punctuation run before the end or before a final newline, which is kept |
| `Formatters.StripPunctuationMaximal` | mtj/jibber/bot.py:8-17 | exactly the maximal trailing run of `.?!,` is removed |
| `Formatters.StripPunctuationKeepsUnpunctuated` | mtj/jibber/bot.py:8-17 | text not ending in punctuation is unchanged |
| `Formatters.StripPunctuationIdempotent` | mtj/jibber/bot.py:8-17 | stripping again changes nothing |
| `Formatters.StripActionIdempotent` | mtj/jibber/bot.py:8-17 | the substitution is idempotent on text whose only newline is its last character |
| `Formatters.DoThings` | mtj/jibber/bot.py:16-18 | a match without groups is an IndexError; a first group of `None` is a TypeError; otherwise the reply quotes the stripped first group |
| `Formatters.DoThingsAction` | mtj/jibber/bot.py:16-18 | the reply is `'<mucnick>: Okay, I will <action>.'` with the action cut exactly at its trailing punctuation |
| `Formatters.TrimStart` | mtj/jibber/bot.py:30 | drops exactly the leading whitespace |
| `Formatters.TrimEnd` | mtj/jibber/bot.py:30 | drops exactly the trailing whitespace |
| `Formatters.Strip` | mtj/jibber/bot.py:30 | `str.strip()` neither starts nor ends in whitespace and is no longer than the input |
| `Formatters.StripBounds` | mtj/jibber/bot.py:30 | `str.strip()` keeps one slice and drops only whitespace on either side |
| `Formatters.FortuneQuotes` | mtj/jibber/bot.py:29-33 | the trimmed fortune is quoted after `'<mucnick>: '`, wrapped in `<html><body>…</body></html>` exactly when it starts with '<' |
| `Formatters.FortuneMarkupIsHtml` | mtj/jibber/bot.py:31-33 | a wrapped fortune is sent as HTML, with a tag-free `mbody` |
| `Formatters.FortunePlainIsText` | mtj/jibber/bot.py:31-32 | a plain fortune for a nickname not opening with '<' is sent as plain text, unchanged |
| `Formatters.NoOpenerNotHtml` | mtj/jibber/jabber.py:403-404 | text not starting with '<' is never taken for HTML |
| `Presence.Muc.constructor` | mtj/jibber/presence.py:14-26 | defaults 0, nobody, `'Hello %(name)s'`, `['participant']`; a missing `greet` is the empty set |
| `Presence.Muc.RejoinPlan` | mtj/jibber/presence.py:50-72 | ignore unless addressed to the bot about its own nickname; join the room at once for timeout 0; otherwise schedule `'Rejoin <room>'` after the timeout |
| `Presence.Muc.AutoRejoin` | mtj/jibber/presence.py:28-72 | the client changes exactly as `Presence.Apply` of the plan says |
| `Presence.ScheduledRejoinOnce` | mtj/jibber/presence.py:56-68 | a repeated scheduled rejoin is absorbed: one waiting entry, no join, no send |
| `Presence.JoinNowRepeats` | mtj/jibber/presence.py:69-72 | an immediate rejoin is logged each time and schedules nothing |
| `Presence.Muc.GreeterAsWritten` | mtj/jibber/presence.py:74-82 | nothing without both guards; otherwise an exception, a TypeError whenever the greeting renders |
| `Presence.GreeterNeverSends` | mtj/jibber/presence.py:81-82 | as written, the greeter never sends |
| `Presence.GreeterMismatch` | mtj/jibber/presence.py:81-82 | for a named occupant in a greeted role, the code raises where the intended greeter sends |
| `Presence.Muc.GreeterIntended` | mtj/jibber/presence.py:74-82 | nothing without both guards; a render error escapes; otherwise the greeting goes into the room (the sender's bare address) as groupchat, as HTML or text per `send_message` |
| `Presence.Muc.Greeter` | mtj/jibber/presence.py:74-82 | the client sends exactly the intended greeting, or nothing, and the scheduler and joins are untouched; the client's distinct-names invariant is kept |

## Left out

- Connection, event registration and `setup_client` (jabber.py:32-67) are outside this model, as are the XMPP library, logging and the command-line front end. `nickname` is an input of the dispatcher.
- Regular expressions and `%` rendering of patterns are abstract. They are `Patterns.valid` and `Patterns.search`, and the greeting's `Render`. The model states their consequences, not their semantics.
- Importing and reloading modules is a given map from module and attribute name to whether the attribute is a class, whether it is a `Command` and which methods it has. An empty module name (a ValueError) and a relative one (a TypeError) are modelled; any other name absent from the map is an ImportError. A constructor `cls(**kwargs)` that raises is not modelled.
- `Tables.PutTimer`, `Jabber.MucChatBot.RegisterAllTimers` and `Jabber.MucChatBot.SetupPackages`: the timer table is ordered by first insertion, and an overwritten key keeps its place. That is the order `timers.keys()` gives under Python 3.7 and later, and the order the reload tests rely on. Under Python 2.7 and 3.3 a dict's key order is arbitrary. The model does not cover that order, so which keys were armed before a failed arming may differ there.
- `Tables.Package`: a descriptor without `package` (a TypeError at the call of `setup_package`) is not modelled; every descriptor has a path.
- Handler bodies are an abstract `Body`. The legacy retry without `bot` (jabber.py:374-380, 316-318) is folded into that function. What a handler does through its `bot` argument is not modelled: its own sends, its scheduling, or changes to the bot's tables or nickname. A handler acts only through its return value, and the client frames of the dispatch methods (`RunCommand`, `RunPrivateCommand`, `RunCommentator`, `SendPackageMethod`, `RunTimer`, `FireTimer`) hold under that assumption. Because `Body` is a function of the call, two calls of the same alias and method with the same message, match and popped keywords get the same outcome, even within one pass; a stateful or random handler (such as `Fortune.fortune`'s random pick) that answers such calls differently is not modelled.
- `Tables.Package`, `Tables.TimerGroup` and `Tables.ScheduleEntry`: configuration values have their expected JSON shapes. Trigger entries are lists of strings, timer groups and schedule entries are objects, and listener and method names are strings. An entry of another JSON type is not modelled. Depending on its type, it would raise a TypeError (a number or `null` unpacked at jabber.py:205, a non-object schedule entry indexed at jabber.py:235) or be unpacked as a pair (a two-key object or a two-character string).
- `random.randint` is an arbitrary choice in the range, so repeated arming may draw different delays.
- `Formatters.IsSpace` follows Python 3 string semantics (`str.isspace` on text). Under Python 2, `strip()` on a byte string drops only ASCII whitespace; that variant is not modelled.
- Concurrency (jabber.py:105-107) is out of scope: every operation runs to completion alone.
- `Dispatch.ListenerRun` and `Jabber.MucChatBot.RunListener`: a listener's return value is discarded, so the model records which listeners were called, not what they did.
- `Formatters.StripActionIdempotent` is restricted to text without an inner newline. That is what a `(.*)` group captures. For text such as `"a.\n."` the substitution is not idempotent.
- `Presence.Muc.RejoinPlan`: the timeout is an `int`. A non-int truthy timeout is not modelled.
- Presence roles are an `Option<string>`. A missing role is never in `greetRole`.
- `Tables.ParseSeconds`: JSON floats and other numbers are `SOther`, and are dropped like any non-int.
- `Jabber.MucChatBot.SendMessage` and `Replies.SendMessage` model only `Replies.Kwargs` values, which are strings. A non-string `raw` (for instance from a dictionary reply) would raise inside `startswith`; that is not modelled.
- The greeter as written never reaches `send_message`, so the model's client-changing `Presence.Muc.Greeter` follows the intended call (see Findings).
- These behaviours of the code are modelled as written:
  - The commentary window holds the raw reply object, not its plain text (jabber.py:351). A self-echo is recognised only when that object equals the message body.
  - The match cap counts truthy replies, not handlers invoked (jabber.py:301-304). Falsy answers do not count.
  - Commentator entries are unpacked outside any `try` (jabber.py:205), so an entry that is a list of another length raises a ValueError instead of being skipped.
  - The self-echo guard requires the sender to be the bot (jabber.py:331). A user repeating the bot's commentary is not suppressed.

## Findings

| source | as written | input that shows it | evidently intended | confidence | as-written member | corrected member |
|---|---|---|---|---|---|---|
| mtj/jibber/presence.py:81-82 | `bot.send_message(msg['from'].bare, raw=raw, mtype='groupchat')` against `def send_message(self, raw, mto, **kwargs)` (jabber.py:401): the room binds `raw` positionally and `raw=` binds it again, a TypeError | `Muc(greet=['room@host/alice'])`, presence from `room@host/alice` with role `participant` | send the greeting into the room `room@host` as a groupchat message | not executed | `Presence.Muc.GreeterAsWritten`, `Presence.GreeterMismatch` | `Presence.Muc.GreeterIntended`, `Presence.Muc.Greeter` |
