# Referral bot worker: polling loop and update dispatch

This project models the message-reader service of a Telegram referral bot. The model lives in `Worker` (`Rcb.MessageReader.Service/Worker.cs`). The worker:

- caches the channel catalog;
- registers three bot commands;
- long-polls the Bot API for updates from an offset that moves past each processed update;
- answers each update.

The answers work as follows:

- `/start` and `/help` get fixed texts.
- `/refer` gets an inline keyboard with one button per catalog channel. Each button's callback data is `refer_to_<ChannelId>`.
- Pressing a button is decoded:
  1. The prefix check.
  2. `string.Replace` of every prefix occurrence.
  3. `int.TryParse`.
  4. `FirstOrDefault` over the catalog.
- The decoded selection is answered with a confirmation and a deep link `https://t.me/<TelegramChannelId>?start=ref_<userId>`, or with an alert.

Modules, in dependency order:

- `Wrappers`: `Option`.
- `Ints`: C# `int` and `long` as newtypes, and the unchecked `update.Id + 1`.
- `Decimal`: `ToString()` of integers and `int.TryParse` under the invariant culture.
- `Text`: ordinal `StartsWith`, and `Replace(pattern, "")` as a single left-to-right scan.
- `Telegram`: the updates received and the outbound Bot API calls, which are recorded as `Action` values.
- `Models`: the `Channel` record.
- `Bot`: `ProcessUpdate` and its handlers. They are pure functions from the catalog and one update to an `Outcome`, which holds the calls made in order and whether the handler then throws. The two null-forgiving dereferences (`message.From!` and `callbackQuery.Message!`) throw.
- `Polling`: the loop of `ExecuteAsync`.
  - A class `Worker` has the cached catalog and the log of outbound calls as fields.
  - Its methods `ProcessBatch` (the `foreach`) and `Execute` (the whole of `ExecuteAsync`) are proved against the functions `RunBatch` and `Run`.
  - Those functions take the handler as a parameter, and their own properties are proved as lemmas.

The environment is data:

- `fetches`: the successive results of `GetUpdates` until cancellation. Each is a batch of updates or a failure.
- `transport(n)`: whether the n-th outbound Bot API call of the session goes through or throws.

The code advances the offset only after `ProcessUpdate` returns: the assignment follows the `await` inside the `try`. An update whose handling throws is therefore requested again by the next `GetUpdates`, and an update whose handling always throws stops the offset for good (`PoisonUpdateBlocksOffset`). `SetMyCommands` is outside the `try`, so its failure ends the worker before polling starts. The model follows the code in both respects.

## Model

| member | source | states |
|---|---|---|
| Ints.Increment | Rcb.MessageReader.Service/Worker.cs:55 | `update.Id + 1` is congruent to Id + 1 modulo 2^32 (unchecked wrap-around), and equals Id + 1 below `int.MaxValue` |
| Decimal.FormatInt | Rcb.MessageReader.Service/Worker.cs:112 | an interpolated `int`/`long` is a non-empty run of digits with a leading `-` exactly when the number is negative |
| Decimal.ParseFormatInt | Rcb.MessageReader.Service/Worker.cs:112 | the signed-digit grammar reads back every number `ToString` writes |
| Decimal.FormatIntInjective | Rcb.MessageReader.Service/Worker.cs:112 | distinct numbers are written as distinct strings |
| Decimal.DigitsValueOfNatDigits | Rcb.MessageReader.Service/Worker.cs:112 | the digits written for n denote n |
| Decimal.NatDigits | Rcb.MessageReader.Service/Worker.cs:112 | the digits `ToString` writes for a non-negative number: non-empty, all decimal digits, and no leading zero except for 0 itself |
| Decimal.TrimStart | Rcb.MessageReader.Service/Worker.cs:133 | what `int.TryParse` skips at the start is a white-space prefix, and what remains does not start with white space |
| Decimal.TrimEnd | Rcb.MessageReader.Service/Worker.cs:133 | what `int.TryParse` skips at the end is a white-space suffix, and what remains does not end with white space |
| Decimal.TrimKeeps | Rcb.MessageReader.Service/Worker.cs:133 | trimming never removes a character that is not white space; it keeps its place relative to the trimmed start |
| Decimal.TryParseInt32 | Rcb.MessageReader.Service/Worker.cs:133 | `int.TryParse` under the invariant culture: white space is trimmed at both ends, then an optional sign and at least one digit must remain, and the value must fit in `int`. Its acceptance is stated by the `TryParseInt32…` lemmas below and its refusals by `Decimal.TryParseInt32Accepted` |
| Decimal.TrimOf | Rcb.MessageReader.Service/Worker.cs:133 | white space on both sides of a text that neither starts nor ends with white space is trimmed off exactly |
| Decimal.TryParseInt32Format | Rcb.MessageReader.Service/Worker.cs:133 | the numeral `ToString` writes, surrounded by white space, parses to its value exactly when the value fits in `int`, and fails (overflow) otherwise |
| Decimal.ParseSigned | Rcb.MessageReader.Service/Worker.cs:133 | a `+` or `-` followed by digits denotes the signed value of the digits |
| Decimal.TryParseInt32Digits | Rcb.MessageReader.Service/Worker.cs:133 | any run of digits, leading zeros allowed, surrounded by white space, parses to its value exactly when that value fits in `int`; otherwise the parse fails (overflow) |
| Decimal.TryParseInt32Signed | Rcb.MessageReader.Service/Worker.cs:133 | a `+` or `-` sign followed by any run of digits (e.g. ` +007 `), surrounded by white space, parses to the signed value exactly when it fits in `int`; otherwise the parse fails |
| Decimal.TrimSplit | Rcb.MessageReader.Service/Worker.cs:133 | a string is exactly its leading white space, its trimmed text and its trailing white space |
| Decimal.ParseSignedDigitsAccepted | Rcb.MessageReader.Service/Worker.cs:133 | the signed-digit grammar accepts only digits, or a `+`/`-` followed by at least one digit, and yields their (signed) value |
| Decimal.TryParseInt32Accepted | Rcb.MessageReader.Service/Worker.cs:133 | conversely, whatever `int.TryParse` accepts is white space, then digits or a sign followed by digits, then white space, and the value read is theirs; so `"1 2"`, `"+-1"`, `"1-"`, `"+"`, `""` and `"  "` are refused |
| Decimal.TryParseInt32OfFormatInt | Rcb.MessageReader.Service/Worker.cs:133 | `int.TryParse(n.ToString())` gives back n for every `int` n |
| Decimal.TryParseInt32RejectsForeign | Rcb.MessageReader.Service/Worker.cs:133 | any character that is not a digit, a sign or white space makes `int.TryParse` fail (except the trailing NUL characters .NET also accepts, which are not modelled) |
| Text.StartsWith | Rcb.MessageReader.Service/Worker.cs:128 | ordinal `StartsWith`: the data is at least as long as the prefix and begins with it. Used as the first test of `DecodeCallbackData` |
| Text.RemoveAll | Rcb.MessageReader.Service/Worker.cs:131 | `Replace(prefix, "")` only deletes: the result is no longer than the input and its characters are drawn from the input's |
| Text.RemoveAllLeading | Rcb.MessageReader.Service/Worker.cs:131 | an occurrence at the start is deleted and the scan continues after it |
| Text.RemoveAllAbsent | Rcb.MessageReader.Service/Worker.cs:131 | a string that never contains the pattern's first character is returned unchanged |
| Text.RemoveAllSkip | Rcb.MessageReader.Service/Worker.cs:131 | a first character that cannot start the pattern is kept and the scan continues after it |
| Text.RemoveAllAfterStep | Rcb.MessageReader.Service/Worker.cs:131 | one induction step of `RemoveAllAfter`: a character before the occurrence is kept |
| Text.RemoveAllAfter | Rcb.MessageReader.Service/Worker.cs:131 | an occurrence after other text is deleted as well: text free of the pattern's first character is kept, the occurrence is deleted, and the scan goes on after it |
| Text.RemoveAllBoth | Rcb.MessageReader.Service/Worker.cs:131 | two occurrences, each followed by text free of the pattern's first character, are both deleted |
| Text.RemoveAllKeeps | Rcb.MessageReader.Service/Worker.cs:131 | a character that does not occur in the pattern is never deleted |
| Bot.ProcessUpdate | Rcb.MessageReader.Service/Worker.cs:66-96 | at most two calls are made. A message update sends at most one message, to its own chat. A callback-only update is answered by its first call, and `Bot.CallbackRouted` states it is handled by `HandleCallbackQuery`. An update with neither does nothing |
| Bot.CallbackRouted | Rcb.MessageReader.Service/Worker.cs:91-95 | an update without a message but with a callback query gets exactly what `HandleCallbackQuery` does for that query |
| Bot.HandleReferCommand | Rcb.MessageReader.Service/Worker.cs:98-123 | `/refer` sends at most one message, and only to the requesting chat |
| Bot.HandleCallbackQuery | Rcb.MessageReader.Service/Worker.cs:125-157 | every callback query is answered, by the first call, with at most one message after it |
| Bot.FindChannel | Rcb.MessageReader.Service/Worker.cs:162 | `FirstOrDefault` returns the first catalog channel with the id, and nothing exactly when no channel has it |
| Bot.HandleReferToChannel | Rcb.MessageReader.Service/Worker.cs:159-192 | a selected id is answered by the first call, with at most one message after it |
| Bot.StartAndHelpReply | Rcb.MessageReader.Service/Worker.cs:72-89 | `/start` and `/help` send exactly one message, with the fixed welcome or help text, to the message's chat |
| Bot.OtherTextIgnored | Rcb.MessageReader.Service/Worker.cs:68-90 | a message whose text is not exactly one of the three commands (or has no text) makes no call |
| Bot.MessageTakesPrecedence | Rcb.MessageReader.Service/Worker.cs:68-95 | when an update has both a message and a callback query, the callback query is ignored |
| Bot.ReferCommandReply | Rcb.MessageReader.Service/Worker.cs:100-122 | `/refer` from a sender sends exactly one message to the requesting chat: the prompt with the catalog menu |
| Bot.ReferWithoutSenderThrows | Rcb.MessageReader.Service/Worker.cs:100 | `/refer` without a sender throws before any call |
| Bot.ReferMenuRows | Rcb.MessageReader.Service/Worker.cs:107-115 | the menu has one single-button row per catalog channel, in catalog order. Row i shows `DisplayName` and carries `refer_to_` followed by `ChannelId` |
| Bot.ReferButton | Rcb.MessageReader.Service/Worker.cs:110-113 | the button for one channel: label `DisplayName`, callback data `refer_to_` followed by `ChannelId`. Its decoding is stated by `Bot.DecodeReferButton` |
| Bot.ReferMenu | Rcb.MessageReader.Service/Worker.cs:107-115 | the `/refer` keyboard. Its shape is stated by `Bot.ReferMenuRows` and its round trip by `Bot.MenuButtonResolves` |
| Bot.DecodeCallbackData | Rcb.MessageReader.Service/Worker.cs:128-137 | what the data selects: no prefix gives an unknown action; otherwise every prefix occurrence is deleted and the remainder must parse as an `int`. Stated by `Bot.UnknownCallback`, `Bot.DecodePrefixed`, `Bot.EmbeddedPrefixDeleted` and `Bot.ForeignCharacterSelection` |
| Bot.UnknownCallback | Rcb.MessageReader.Service/Worker.cs:148-156 | data that is null or lacks the prefix gets exactly one "Unknown action." alert and nothing else |
| Bot.InvalidSelectionIgnoresCatalog | Rcb.MessageReader.Service/Worker.cs:131-146 | prefixed data whose remainder does not parse gets exactly one "Invalid channel selection." alert, and the result does not depend on the catalog |
| Bot.ForeignCharacterSelection | Rcb.MessageReader.Service/Worker.cs:131-146 | prefixed data holding, anywhere, a character that does not occur in the prefix and is not a digit, a sign or white space (such as `refer_to_abc` or `refer_to_12x`) gets exactly one "Invalid channel selection." alert |
| Bot.FoundChannelReply | Rcb.MessageReader.Service/Worker.cs:162-177 | a known id gets a non-alert "Referral link generated for {DisplayName}." for the first matching channel, then exactly one message with the deep link to the button's chat |
| Bot.FoundChannelWithoutMessage | Rcb.MessageReader.Service/Worker.cs:169-175 | a known id on a button without a message gets exactly the non-alert "Referral link generated for {DisplayName}." answer to this query, for the first matching channel, and then throws |
| Bot.MissingChannelAlert | Rcb.MessageReader.Service/Worker.cs:181-188 | an id no channel has gets exactly one "Channel not found." alert and no message |
| Bot.DecodePrefixed | Rcb.MessageReader.Service/Worker.cs:128-137 | data made of the prefix and a rest without `r` is decided by parsing the rest alone |
| Bot.DecodeReferButton | Rcb.MessageReader.Service/Worker.cs:131-133 | a button's callback data decodes to the button's channel id |
| Bot.SelectionDispatched | Rcb.MessageReader.Service/Worker.cs:133-136 | a decoded id is handed to the channel handler |
| Bot.ButtonResolves | Rcb.MessageReader.Service/Worker.cs:131-164 | a channel's button data, fed back against the same catalog, reaches the found-channel branch for that id, at the first channel with it |
| Bot.MenuButtonResolves | Rcb.MessageReader.Service/Worker.cs:107-164 | round trip: every button of the `/refer` menu, pressed against the same catalog, reaches the found-channel branch for its channel id |
| Bot.ReferralLink | Rcb.MessageReader.Service/Worker.cs:167 | the deep link `https://t.me/{TelegramChannelId}?start=ref_{userId}`. Stated by `Bot.ReferralLinkUserId` and `Bot.ReferralLinkInjective` |
| Bot.ReferralLinkUserId | Rcb.MessageReader.Service/Worker.cs:167 | the link starts with `https://t.me/{TelegramChannelId}?start=ref_`, and the user id can be read back from what follows |
| Bot.ReferralLinkInjective | Rcb.MessageReader.Service/Worker.cs:167 | two users never get the same link to the same channel |
| Bot.RepeatedPrefixAccepted | Rcb.MessageReader.Service/Worker.cs:131 | because `Replace` deletes every occurrence, a doubled prefix still selects the channel |
| Bot.EmbeddedPrefixDeleted | Rcb.MessageReader.Service/Worker.cs:131-137 | the prefix is deleted wherever it occurs, so `refer_to_1refer_to_2` selects what `12` parses to |
| Polling.Issue | Rcb.MessageReader.Service/Worker.cs:169-177 | awaited calls are made in order until the first one that throws, and none after it |
| Polling.Handle | Rcb.MessageReader.Service/Worker.cs:54 | the calls made are exactly the handler's actions issued in order up to the first refused one. `await ProcessUpdate` returns exactly when the handler does not throw and every call went through, and then all of its actions were made |
| Polling.RunBatch | Rcb.MessageReader.Service/Worker.cs:52-56 | the batch processes a prefix of the updates. The offset is the last processed update's `Id + 1`, or unchanged if none was processed. Earlier calls are kept. No processed update threw |
| Polling.RunBatchStep | Rcb.MessageReader.Service/Worker.cs:52-56 | updates are processed in order: after the first j updates, update j is handled next, its calls are appended, and the offset moves to its `Id + 1` exactly when it returned |
| Polling.CompletedBatchAccepted | Rcb.MessageReader.Service/Worker.cs:52-56 | a batch processed to its end made all of its calls successfully |
| Polling.StoppedBatchReason | Rcb.MessageReader.Service/Worker.cs:52-62 | a batch stops early only at an update whose handler threw or whose last call was refused |
| Polling.RunBatchStopped | Rcb.MessageReader.Service/Worker.cs:52-58 | after the first exception, the rest of the batch changes nothing |
| Polling.ThrownUpdateRequestedAgain | Rcb.MessageReader.Service/Worker.cs:45-62 | with increasing ids, the next offset is past every processed update and not past the one that threw, so that one is requested again |
| Polling.Iterate | Rcb.MessageReader.Service/Worker.cs:43-62 | a failed `GetUpdates` leaves offset and calls unchanged |
| Polling.Run | Rcb.MessageReader.Service/Worker.cs:41-63 | the loop only ever appends calls. Its offset is stated by `Polling.SessionOffset` |
| Polling.PoisonUpdateBlocksOffset | Rcb.MessageReader.Service/Worker.cs:41-62 | an update whose handling always throws, returned first by every successful `GetUpdates`, keeps the offset where it started |
| Polling.ProcessedUpdates | Rcb.MessageReader.Service/Worker.cs:41-63 | the updates the session processed without an exception, in order: for each successful `GetUpdates`, the processed prefix of its batch |
| Polling.SessionOffset | Rcb.MessageReader.Service/Worker.cs:40-63 | the offset after the loop is the `Id + 1` of the last update processed in the whole session, or the starting offset when none was processed |
| Polling.SessionProcessedReturned | Rcb.MessageReader.Service/Worker.cs:52-56 | no update the session processed has a handler that throws |
| Polling.Worker.ProcessBatch | Rcb.MessageReader.Service/Worker.cs:52-56 | the `foreach` loop leaves offset and call log as `RunBatch` says, and reports an exception exactly when the batch stopped early |
| Polling.Worker.Execute | Rcb.MessageReader.Service/Worker.cs:26-63 | caches the catalog and registers the three commands. If registration throws, the worker faults at offset 0. Otherwise polling runs from offset 0 as `Run` says |

## Left out

- Logging, `Task.Delay(5000)`, the cancellation token, and the async machinery are not modelled. Cancellation is the end of the `fetches` sequence.
- The `GetUpdates` arguments (timeout, allowed update types) are not modelled. Each result is taken as a given batch or a failure.
- Bot API internals are not modelled. An outbound call is a recorded `Action`, and `transport` decides whether it throws.
- The `Worker` constructor (configuration and bot token) is not modelled. `Program.cs`, `Referral.cs`, `MainController.cs` and the SQL channel repository are not part of this model.
- A failure of `GetChannelsAsync` is not modelled. The catalog is an input of `Execute`.
- The unused `userName` of `HandleReferCommand` is not modelled. Neither are the `Channel` fields the worker never reads (`Name`, `Active`, timestamps, `LanguageCode`).
- Null strings in `Channel` are not modelled. In the source, a null `DisplayName` would be the button text itself and would interpolate as empty text in the replies; a null `TelegramChannelId` would interpolate as empty text in the link.
- Decimal.TryParseInt32: the trailing NUL characters that .NET also accepts are not modelled.
- Decimal.TryParseInt32: culture-specific sign symbols are not modelled. The invariant culture is assumed.
- Decimal.FormatInt: the string interpolations that write `ChannelId` and the user id format with the current culture; the invariant culture, whose negative sign is `-`, is assumed.
- Text.StartsWith: the comparison is ordinal. .NET's `StartsWith(string)` uses the current culture, which may ignore zero-width characters.
