# Mendotran bot core, modelled in Dafny

Mendotran is a WhatsApp bot that answers questions about the buses and the metro of Mendoza. A user sends it a command: a prefix, a command name or alias, and arguments. The bot finds the command and checks the sender's cooldown. It coerces the arguments to the declared parameter types and runs the command's callback. The callback answers with a *response descriptor*: a message, an error or a reaction. The message sender turns that descriptor into calls to the chat client.

The commands that matter answer with the next arrivals at a bus stop or a metro station. They read two JSON tables: the stops, and the bus lines with their colours. Two generators build those tables from the transit server's answers.

The project models that core, one Dafny module per concern:

- `Wrappers`, `Text`: `Option`/`Result`, and the string helpers. Case conversion, trimming, decimal printing and digit strings are covered as far as the core uses them.
- `CommandTypes`, `Coercion`, `CommandRegistry`, `CommandMessages`, `Dispatch` cover the command engine of `src/modules/commands/commands.ts`:
  - argument values, parameters and commands;
  - `argument_type` and the in-place `verify_args` over an `array`;
  - the `CommandsManager` class, with its command list and alias map, and the fluent builder;
  - the error texts and the help text;
  - `exec_command` and the built-in `help` command.
- `Cooldown`: `src/modules/commands/cooldown.ts`, as a class holding the per-sender history map. It covers `checkUserCoolDown` and the periodic sweep.
- `Responses`, `MessageSending`: the response descriptors of `sendResponses.ts` and the older `send_response`. `readResponse` becomes a planner that returns the client calls in the order they are issued.
- `Emojis`, `TimeString`: the colour and clock tables, `getBusColor` and `getTimeString`.
- `Arrivals`, `Mendotran`: `src/modules/mendotran/mendotran.ts`. This covers the stable sort by arrival time and the arrival text. It also covers the stop, metro and metro-search queries and `handleErrors`.
- `StopDatabase`, `LegacyDatabase`: the two table generators, `generateDatabase.ts` and the older `generate_database.ts`.

Inputs the code gets from outside are parameters of the model:
- the server's answers;
- the JSON tables;
- the current time, and the clock fields and local time of a date;
- the configured prefix, cooldown base and admin list;
- the emoji `timeToEmoji` picks.

Loops in the source become methods with loops, proved against specification functions. It is those functions that the properties are proved about.

## Model

| member | source | states |
|---|---|---|
| CommandTypes.TypeNames | src/modules/commands/commands.ts:44 | the type list printed in the invalid-argument message holds one name per declared type, in declaration order |
| Coercion.DigitsAreNotBoolWords | src/modules/commands/commands.ts:169-174 | no digit string, in any case, is one of the boolean words, so the boolean test and the number test of `argument_type` never both apply |
| Coercion.ArgumentType | src/modules/commands/commands.ts:166-184 | a string is `boolean` exactly when it is si/no/true/false in any case, `number` exactly when it is all digits, and `string` otherwise; only null and undefined get `null`; `any` is never returned |
| Coercion.CoerceMeaning | src/modules/commands/commands.ts:196-224 | the inner loop of `verify_args` fails exactly when no declared type matches the token, and otherwise returns the conversion of the first type that matches |
| Coercion.FirstMatchWins | src/modules/commands/commands.ts:197-223 | the first matching type decides the conversion, whatever types follow it |
| Coercion.StringAcceptsAll | src/modules/commands/commands.ts:202 | a parameter that accepts `string` accepts every token |
| Coercion.AnyKeepsToken | src/modules/commands/commands.ts:198-201 | `any` as the first type keeps the token unchanged, quotes included |
| Coercion.StringStripsQuotes | src/modules/commands/commands.ts:205-209 | for `string`, a token enclosed in one pair of double or single quotes loses exactly that pair |
| Coercion.BooleanCaseQuirk | src/modules/commands/commands.ts:214-219 | a boolean word not in lower case passes the case-insensitive type test but matches neither case-sensitive rewrite, so it stays a string |
| Coercion.UpperSiStaysString | src/modules/commands/commands.ts:214-219 | "SI" checked as a boolean stays the string "SI" |
| Coercion.NoNegativeNumbers | src/modules/commands/commands.ts:173 | a token with a leading minus sign is never accepted as a number |
| Coercion.CheckedCount | src/modules/commands/commands.ts:189-190 | the number of checked arguments is the smaller of the argument and parameter counts |
| Coercion.FirstRejected | src/modules/commands/commands.ts:193-229 | no argument is reported exactly when all checked arguments are accepted; a reported position is rejected and every earlier one accepted |
| Coercion.FirstRejectedIs | src/modules/commands/commands.ts:226-228 | the argument reported is the first rejected one |
| Coercion.RewrittenUpTo | src/modules/commands/commands.ts:205-219 | rewriting the arguments keeps their number |
| Coercion.RewrittenUpToAt | src/modules/commands/commands.ts:193-224 | after `k` rounds the first `k` arguments hold their conversions and the rest are untouched |
| Coercion.RewriteStep | src/modules/commands/commands.ts:193-224 | one accepted argument extends the converted prefix by one and keeps the no-rejection fact |
| Coercion.CoercedUpTo | src/modules/commands/commands.ts:193-224 | the converted argument list keeps its length |
| Coercion.FirstInvalidMeaning | src/modules/commands/commands.ts:193-229 | `verify_args` succeeds exactly when every checked argument matches some declared type, and otherwise names the first that matches none |
| Coercion.CoercedUpToAt | src/modules/commands/commands.ts:193-224 | each converted argument is the conversion of its own token and the arguments past the checked ones are left as they were |
| Coercion.CoerceArg | src/modules/commands/commands.ts:196-224 | the inner type loop, with its `break`s, computes the first-matching-type conversion |
| Coercion.CoerceOne | src/modules/commands/commands.ts:193-229 | one round of the outer loop either rejects argument `i`, leaving the array as it was, or writes its conversion in place |
| Coercion.CoerceArgs | src/modules/commands/commands.ts:193-229 | the outer loop reports the first invalid argument and leaves the array converted up to that argument, or converted all through when none is invalid |
| Coercion.VerifyArgs | src/modules/commands/commands.ts:186-231 | no parameters gives `false` and leaves the arguments alone; otherwise the result is `true` with every checked argument converted in place, or the invalid-argument error naming that argument, its parameter and the parameter's types |
| Responses.LoopCheck | src/modules/commands/commands.ts:379-385 | the anti-loop check fires exactly when a text response starts with the prefix followed by the name of a registered command, and it then gives that error text |
| Responses.EmptyPrefixRefusesAlias | src/modules/commands/commands.ts:379-381 | with the empty prefix every text response whose first word is a registered alias is refused |
| Responses.CodeOf | src/modules/commands/commands.ts:387 | the code is ERROR exactly for an error response |
| Responses.LegacySendResponse | src/modules/commands/commands.ts:377-396 | `send_response` fails exactly on the anti-loop condition; otherwise its type is REPLY exactly when `reply` is set and SEND otherwise, and it carries the content, reaction and message options unchanged |
| Responses.LegacySendErrorResponse | src/modules/commands/commands.ts:398-400 | `send_error_response` is `send_response` with `asError` forced, so its code is ERROR |
| Responses.SendResponse | src/modules/commands/sendResponses.ts:8-46 | `sendResponse` fails exactly on the anti-loop condition, with that error text; otherwise it builds the descriptor from the code, the chosen type and the unchanged data |
| Responses.ResponseTypeCases | src/modules/commands/sendResponses.ts:9-31 | the type is REPLY for truthy content with `asReply`, SEND for truthy content without it, REACT for no content with a non-empty reaction, UNKNOWN otherwise; each case is an if-and-only-if |
| Responses.NoPrefixNeverThrows | src/modules/commands/sendResponses.ts:12 | a response that does not start with the prefix is never refused by either sender |
| Responses.SendErrorResponse | src/modules/commands/sendResponses.ts:48-50 | `sendErrorResponse` is `sendResponse` with `asError` forced and every other option kept, so its code is ERROR |
| Responses.SendReactionResponse | src/modules/commands/sendResponses.ts:52-66 | `sendReactionResponse` always builds a REACT descriptor with the reaction, no content and the message options |
| MessageSending.MsgOptions | src/modules/whatsapp/messageSending.ts:35-38 | the merged options hold `sendSeen`, taken from the response's options when present there and from the setting otherwise, and every other key exactly as the response's options have it |
| MessageSending.ReplyOptions | src/modules/whatsapp/messageSending.ts:22-24 | a reply's options are the given options with `quotedMessageId` set to the original message's id and nothing else changed |
| MessageSending.SendReaction | src/modules/whatsapp/messageSending.ts:26-30 | a reaction is two calls: clear, then set |
| MessageSending.ReadResponse | src/modules/whatsapp/messageSending.ts:32-92 | the calls, in the order they are issued, and the message returned are those of the response plan, including the unawaited reaction of line 44 issuing its reaction after the send |
| MessageSending.PlanShape | src/modules/whatsapp/messageSending.ts:41-76 | every plan holds at most a clear, a reaction and one send, the clear first, and the returned message is the send whenever there is one; an awaited reaction (an error, or a reaction response) precedes the send, while any other OK reaction is issued after it |
| MessageSending.UnawaitedReactionAfterSend | src/modules/whatsapp/messageSending.ts:42-57 | an OK message or reply with a reaction issues the clear, then the send, then the reaction, and returns the send |
| MessageSending.OkSends | src/modules/whatsapp/messageSending.ts:41-59 | an OK response sends exactly one message when its content is truthy and its type is reply or message, and none otherwise; a reply quotes the original message |
| MessageSending.ErrorPlan | src/modules/whatsapp/messageSending.ts:72-76 | an error response always reacts, with its own reaction or the prohibition sign, and sends the banner plus its text only for a non-empty string, never as a reply |
| MessageSending.ReturnsOriginal | src/modules/whatsapp/messageSending.ts:42-48 | the reacted message is returned exactly for an OK reaction response that carries a reaction |
| MessageSending.ReactionResponsePlan | src/modules/commands/sendResponses.ts:52-66 | an OK reaction response plans exactly the reaction pair and returns the reacted message |
| Cooldown.Pushed | src/modules/commands/cooldown.ts:40-45 | the grown history has two to five entries and ends with `now` |
| Cooldown.CooldownGuard.constructor | src/modules/commands/cooldown.ts:6 | the guard starts with an empty history |
| Cooldown.CooldownGuard.Check | src/modules/commands/cooldown.ts:32-62 | `checkUserCoolDown` answers, and leaves the history, as the cooldown specification says, and keeps every history between one and five entries |
| Cooldown.CooldownGuard.Sweep | src/modules/commands/cooldown.ts:10-30 | the sweep leaves the history holding exactly the senders that have not expired |
| Cooldown.FromMeUnchanged | src/modules/commands/cooldown.ts:33 | a message of the bot's own passes and changes nothing |
| Cooldown.NewSender | src/modules/commands/cooldown.ts:55-61 | an unknown sender gets the history `[now]` and passes unless it is executing a command |
| Cooldown.CheckKeepsHistoriesValid | src/modules/commands/cooldown.ts:37-57 | every check keeps each history between one and five entries, leaves `now` last in the sender's history and touches no other sender |
| Cooldown.Eviction | src/modules/commands/cooldown.ts:40-45 | a full history drops its oldest entry, a shorter one only grows, and `now` is appended either way |
| Cooldown.KnownSenderVerdict | src/modules/commands/cooldown.ts:47-59 | a known sender is refused exactly when the time since its previous command is below the cooldown for the grown history, or when it is executing a command; a refused too-soon sender keeps the appended timestamp |
| Cooldown.Collapse | src/modules/commands/cooldown.ts:51-53 | after a pause longer than the cooldown plus the base, the history collapses to `[now]` |
| Cooldown.ExecutingRejects | src/modules/commands/cooldown.ts:59 | a sender that is executing a command is refused, and its history changes as it would otherwise |
| Cooldown.RequiredMonotone | src/modules/commands/cooldown.ts:5 | the required cooldown never shrinks as a history grows and tops out at three times the base |
| Cooldown.FirstMultiplierUnused | src/modules/commands/cooldown.ts:45-47 | a known sender's grown history has at least two entries, so the smallest cooldown applied is 1.2 times the base |
| Cooldown.SweepMeaning | src/modules/commands/cooldown.ts:16-23 | the sweep deletes exactly the expired senders, keeps the others' histories, keeps the histories valid, and sweeping twice at the same time is sweeping once |
| Cooldown.SweptSendersAreIdle | src/modules/commands/cooldown.ts:17 | a swept sender has been idle longer than the longest cooldown a check can demand |
| TimeString.TimeValues | src/utils/getTimeString.ts:3-9 | one value per flag that is set, in the order hours, minutes, seconds, milliseconds |
| TimeString.RenderFields | src/utils/getTimeString.ts:11-21 | the `forEach` loop builds the rendered string for the values |
| TimeString.GetTimeString | src/utils/getTimeString.ts:1-24 | `getTimeString` renders the flagged fields of the clock |
| TimeString.PadShape | src/utils/getTimeString.ts:12 | a value below 10 gets exactly one leading zero; from 10 on it is printed without one; every field has at least two characters |
| TimeString.SeparatorRule | src/utils/getTimeString.ts:14-20 | ':' follows positions 0 and 1, '.' the later ones, nothing follows the last field |
| TimeString.RenderedSeparators | src/utils/getTimeString.ts:11-21 | after `k` fields the string holds one separator per field but the last |
| TimeString.SeparatorTotal | src/utils/getTimeString.ts:11-21 | the whole string holds exactly one separator fewer than there are fields, and none for no fields |
| TimeString.NoFlagsEmpty | src/utils/getTimeString.ts:3-23 | with no flag set the result is the empty string |
| TimeString.HoursMinutes | src/utils/getTimeString.ts:6-21 | hours and minutes render as `HH:MM` |
| TimeString.AllFields | src/utils/getTimeString.ts:6-21 | all four fields render as `HH:MM:SS.mmm`, the milliseconds after a '.' |
| Emojis.BusColorIndex | src/modules/mendotran/emojis.ts:37-43 | the index `getBusColor` reads always lies inside the ten-entry colour table |
| Emojis.GetBusColor | src/modules/mendotran/emojis.ts:37-43 | the colour is an entry of the colour table |
| Emojis.LeadingDigitOfThreeDigits | src/modules/mendotran/emojis.ts:39 | the leading character of a three-digit number printed in decimal is its hundreds digit |
| Emojis.InRangeColour | src/modules/mendotran/emojis.ts:38-39 | a line from 100 to 999 gets the colour of its hundreds digit, never entry 0 |
| Emojis.OutOfRangeColour | src/modules/mendotran/emojis.ts:40-42 | a line below 100, from 1000 on, or not a number gets entry 0 |
| Emojis.SixHundredsLookLikeSevenHundreds | src/modules/mendotran/emojis.ts:11-12 | the 600s and the 700s get the same colour |
| Emojis.OtherHundredsDiffer | src/modules/mendotran/emojis.ts:4-15 | every other pair of different hundreds gets two different colours |
| Emojis.TableShapes | src/modules/mendotran/emojis.ts:4-30 | the colour table has ten entries and the clock table twelve pairs |
| CommandRegistry.CreateCommand | src/modules/commands/commands.ts:105-119 | a new command has the given aliases, no parameters, no optional values and the no-op callback; each option is the given one or the default `false`; the info is the given one |
| CommandRegistry.SetCallback | src/modules/commands/commands.ts:121-123 | the command gets the callback and nothing else changes |
| CommandRegistry.MergeInfo | src/modules/commands/commands.ts:144-147 | each info field is the given one, or the default "UNDEFINED", "" and "UNDEFINED" for name, description and example |
| CommandRegistry.AddParameter | src/modules/commands/commands.ts:125-151 | a default whose type is not declared throws that error; otherwise the parameter is appended with its types, default and merged info, it is optional exactly when a default (even `null`) was given, the command is marked as having optional values in that case, and nothing else changes |
| CommandRegistry.NumberDefaultNeedsNumberType | src/modules/commands/commands.ts:129-131 | a number default is accepted for a `number` parameter and refused for a `string` one |
| CommandRegistry.NullDefaultIsOptional | src/modules/commands/commands.ts:129-138 | a `null` default is always accepted and marks the command as having optional values |
| CommandRegistry.OptionalSpreads | src/modules/commands/commands.ts:155-161 | when no optional parameter is directly followed by a required one, every parameter after an optional one is optional |
| CommandRegistry.OrderCheckIsSuffix | src/modules/commands/commands.ts:153-161 | the adjacent-pair check accepts exactly the parameter lists whose optional parameters form a suffix |
| CommandRegistry.CheckOptionalOrder | src/modules/commands/commands.ts:155-161 | the loop over adjacent parameters accepts exactly when no optional parameter is directly followed by a required one |
| CommandRegistry.Splice | src/modules/commands/commands.ts:76 | `splice(i, 1)` removes position `i`, or nothing once `i` is past the end |
| CommandRegistry.Collisions | src/modules/commands/commands.ts:69-79 | at most one collision is counted per alias examined |
| CommandRegistry.Unused | src/modules/commands/commands.ts:70-79 | the aliases kept number those examined minus the collisions |
| CommandRegistry.UnusedMembers | src/modules/commands/commands.ts:70-79 | the intended filtered list holds exactly the aliases not in use |
| CommandRegistry.NoCollisionKeepsAll | src/modules/commands/commands.ts:70-79 | with no collision nothing is filtered out |
| CommandRegistry.AllCollideIffAllUsed | src/modules/commands/commands.ts:81-83 | `add` throws exactly when every one of the command's aliases is already in use |
| CommandRegistry.StaleFilterOneCollision | src/modules/commands/commands.ts:70-79 | with at most one collision the as-written filter removes exactly the aliases in use |
| CommandRegistry.StaleFilterDropsWrongAlias | src/modules/commands/commands.ts:70-79 | with aliases x, y, z of which x and y are in use, the as-written filter keeps y and drops z |
| CommandRegistry.IntendedFilterIsUnused | src/modules/commands/commands.ts:70-79 | the filter that splices at the alias's position in the copy removes exactly the aliases in use, however many collide |
| CommandRegistry.Lookup | src/modules/commands/commands.ts:233-241 | `search_command` finds a command exactly for a non-empty registered name, and it is the command that name maps to |
| CommandRegistry.RegisteredMeaning | src/modules/commands/commands.ts:85-88 | after registration every kept alias maps to the new command's index and every other key keeps its index |
| CommandRegistry.AddFailsIffAllUsed | src/modules/commands/commands.ts:68-91 | `add` fails exactly when every alias is in use, then leaving the registry as it was; otherwise the list grows by the command |
| CommandRegistry.AddKeepsRegistryValid | src/modules/commands/commands.ts:68-91 | a registration keeps every alias pointing at a registered command whose own alias list holds it; afterwards each kept alias finds the new command and every other name finds what it found before |
| CommandRegistry.IntendedNeverSteals | src/modules/commands/commands.ts:70-79 | with the intended filter a registration never takes an alias another command holds |
| CommandRegistry.AddStealsAlias | src/modules/commands/commands.ts:70-88 | as written, registering x, y, z while x and y are held moves y to the new command |
| CommandRegistry.CommandsManager.constructor | src/modules/commands/commands.ts:63-66 | the registry starts empty |
| CommandRegistry.CommandsManager.Search | src/modules/commands/commands.ts:233-241 | `search_command` against this registry |
| CommandRegistry.CommandsManager.Add | src/modules/commands/commands.ts:68-91 | the collision loop, the throw and the alias updates leave the result and the registry that `add` as written gives, and keep every mapped alias pointing at a registered command that lists it |
| CommandRegistry.CommandsManager.CloseCommand | src/modules/commands/commands.ts:153-164 | an optional parameter followed by a required one throws and leaves the registry alone; otherwise the command is registered as `add` does |
| CommandMessages.NonNumericPrefixFails | src/modules/commands/commands.ts:25 | a prefix that is not a number never passes `commandPrefix > 0` |
| CommandMessages.ExclamationPrefixCapitalises | src/modules/commands/commands.ts:25 | with the prefix "!" or no prefix, `MISSING_ARGUMENT` prints the first alias capitalised |
| CommandMessages.Shown | src/modules/commands/commands.ts:28-35 | one shown part per parameter examined |
| CommandMessages.AppendMarkers | src/modules/commands/commands.ts:28-35 | the loop appends the marker of every parameter from the first missing one on, a space after each but the last |
| CommandMessages.MissingArgument | src/modules/commands/commands.ts:23-40 | `MISSING_ARGUMENT` builds the missing-argument text |
| CommandMessages.ShownAt | src/modules/commands/commands.ts:28-33 | the `j`-th shown part is that of the parameter at position `lo + j` |
| CommandMessages.SpacedPrefix | src/modules/commands/commands.ts:34 | before the last parameter every shown part is followed by its space |
| CommandMessages.SpacedIsJoin | src/modules/commands/commands.ts:28-35 | the markers are joined by single spaces, with no space after the last |
| CommandMessages.MissingArgumentShape | src/modules/commands/commands.ts:23-40 | the message is the header, the prefix and alias in underscores, the given arguments, then the markers of the parameters from position #args on joined by single spaces |
| CommandMessages.MissingArgumentMarkers | src/modules/commands/commands.ts:28-33 | the markers shown are exactly those of the parameters from position #args on, in order, `[ *name* ]` for optional and `{ *name* }` for required ones |
| CommandMessages.CommandExample | src/modules/commands/commands.ts:319-374 | `command_example` gives `null` exactly when the command has no display name |
| CommandMessages.AddParameterHelp | src/modules/commands/commands.ts:337-360 | one parameter adds its piece to the syntax line, the example line and the descriptions |
| CommandMessages.AddParametersHelp | src/modules/commands/commands.ts:337-360 | the `forEach` builds the three folds over all parameters |
| CommandMessages.HelpText | src/modules/commands/commands.ts:319-374 | the method builds the help text of `command_example` |
| CommandMessages.HelpStep | src/modules/commands/commands.ts:337-360 | one more parameter extends each fold by that parameter's piece |
| CommandMessages.SyntaxExtends | src/modules/commands/commands.ts:331-343 | the syntax line starts with its seed |
| CommandMessages.UnnamedAddsNothing | src/modules/commands/commands.ts:338 | a parameter without a name adds nothing to any part of the help text |
| CommandMessages.HelpStartsWithTitle | src/modules/commands/commands.ts:320-321 | the help text of a named command exists and opens with its title line |
| CommandMessages.HelpAliasSection | src/modules/commands/commands.ts:365-368 | with more than one alias the text ends with the quoted aliases joined by `" - "`; a command with no parameters and one alias gets only its header |
| Dispatch.TokenShapes | src/modules/commands/commands.ts:246 | every token the tokenizer yields is non-empty and is either a quoted span, quotes kept, or holds no space |
| Dispatch.FirstWordOf | src/modules/commands/commands.ts:380 | the first word of `w + " " + rest` is `w` when `w` has no space |
| Dispatch.TokenizeWord | src/modules/commands/commands.ts:246 | a non-empty word with no space and no leading quote is one token |
| Dispatch.TokenizeJoin | src/modules/commands/commands.ts:246 | such words joined by single spaces tokenize back into the words |
| Dispatch.TokenizeWordThen | src/modules/commands/commands.ts:246 | a word followed by a space is the first token of what follows |
| Dispatch.TokenizeQuoted | src/modules/commands/commands.ts:246 | a quote closed later gives the whole quoted span, quotes kept, as one token |
| Dispatch.StrValues | src/modules/commands/commands.ts:246-248 | the tokens become string arguments, one per token, in order |
| Dispatch.DefaultsFrom | src/modules/commands/commands.ts:274-278 | at most one default per missing parameter |
| Dispatch.ExecCommand | src/modules/commands/commands.ts:243-299 | `exec_command` reads the registry, applies the gates, fills the defaults and checks the arguments with the outcome the dispatch specification gives |
| Dispatch.ApplyArguments | src/modules/commands/commands.ts:264-289 | the part after the gates: a command without parameters runs with the raw tokens; otherwise defaults are collected, too few values throws `MISSING_ARGUMENT`, an invalid argument throws `INVALID_ARGUMENT`, and the callback runs with the converted arguments followed by the defaults |
| Dispatch.CollectDefaults | src/modules/commands/commands.ts:270-279 | the loop collects the defaults of the optional parameters past the given arguments when the command has optional values and arguments are missing, and nothing otherwise |
| Dispatch.RequiredIn | src/modules/commands/commands.ts:274-281 | the required parameters of a range number at most its length |
| Dispatch.DefaultsCount | src/modules/commands/commands.ts:274-278 | the defaults collected number the parameters of the range minus its required ones |
| Dispatch.RequiredInSuffix | src/modules/commands/commands.ts:274-278 | a range holds no required parameter exactly when all its parameters are optional |
| Dispatch.MissingArgumentIffRequiredLeftOut | src/modules/commands/commands.ts:273-288 | for a command that passed the optional-order check, a message gets `MISSING_ARGUMENT` exactly when one of the parameters it leaves out is required |
| Dispatch.UnknownOrForbiddenIgnored | src/modules/commands/commands.ts:248-255 | an empty message, one naming no registered command, or an admin-only command sent by anyone but the bot's own account does nothing |
| Dispatch.InvokedArguments | src/modules/commands/commands.ts:281-284 | when the callback runs with parameters declared, it gets the first min(#args, #params) arguments converted, the excess ones as given, and then the defaults |
| Dispatch.HelpCommand | src/modules/commands/commands.ts:403-428 | the built-in command has the aliases "help" and "?", its info, the callback, and one optional `string` parameter whose default is `null` |
| Dispatch.BareHelpThrows | src/modules/commands/commands.ts:408-410 | "help" on its own runs the callback with `[null]`, and the callback as written then throws a TypeError on `null.toLowerCase()` |
| Dispatch.ExecNoArguments | src/modules/commands/commands.ts:246-283 | a single token naming a command open to everyone and needing no quote goes straight to the argument handling with no arguments |
| Dispatch.BareHelpTokens | src/modules/commands/commands.ts:246-248 | the prefix followed by "help" is one token that names "help" |
| Dispatch.PrefixedWordTokens | src/modules/commands/commands.ts:246-248 | the prefix followed by a lower-case word is one token that names the word |
| Dispatch.BareHelpDefaults | src/modules/commands/commands.ts:273-283 | with no argument `help` gets its `null` default and its callback runs with `[null]` |
| Dispatch.BareHelpAnswered | src/modules/commands/commands.ts:422-425 | the intended callback answers a bare "help" with the help text of `help`, which exists |
| Dispatch.HelpIntendedAgrees | src/modules/commands/commands.ts:408-425 | with a string argument, or none, the intended callback does what the written one does |
| Text.NatToString | src/utils/getTimeString.ts:12 | a number printed in decimal is a non-empty digit string |
| Text.NatToStringRoundTrip | src/modules/mendotran/emojis.ts:39 | reading back a printed number gives the number |
| Text.NatToStringNoLeadingZero | src/modules/mendotran/emojis.ts:39 | a printed number starts with '0' exactly when it is 0 |
| Text.NatToStringLength | src/utils/getTimeString.ts:12 | a one-digit number prints as one character and a two-digit one as two |
| Text.Lower | src/modules/commands/commands.ts:248 | `toLowerCase()` lowers each character in place and keeps the length |
| Text.Upper | src/modules/mendotran/mendotran.ts:179 | `toUpperCase()` raises each character in place and keeps the length |
| Text.Capitalize | src/modules/commands/commands.ts:25 | the first character is raised and the rest kept |
| Text.LowerUnchanged | src/modules/commands/commands.ts:248 | a string without upper-case letters is its own lower case |
| Text.LowerIdempotent | src/modules/commands/commands.ts:248 | lowering twice is lowering once |
| Text.Drop | src/modules/commands/commands.ts:380 | `slice(n)` drops the first `n` characters, or gives the empty string past the end |
| Text.FindChar | src/modules/commands/commands.ts:246 | the position found holds the character and none before it does; none is found exactly when the character is absent |
| Text.FirstWord | src/modules/commands/commands.ts:380 | `split(" ")[0]` is a space-free prefix of the string that ends at its first space |
| Text.ContainsAtOffset | src/modules/mendotran/mendotran.ts:291-295 | `search(...) >= 0` holds exactly when the needle starts at some offset |
| Text.TrimStart | src/modules/mendotran/mendotran.ts:89 | dropping leading white space leaves a suffix that does not start with white space |
| Text.TrimEnd | src/modules/mendotran/mendotran.ts:89 | dropping trailing white space leaves a prefix that does not end with white space |
| Text.Trim | src/modules/mendotran/mendotran.ts:89 | `trim()` leaves no white space at either end |
| Text.TrimUnchanged | src/modules/mendotran/mendotran.ts:89 | a string with no white space at either end is its own trim |
| Text.NotANumber | src/modules/mendotran/mendotran.ts:172 | a string that starts with neither a digit, a sign nor white space is NaN under unary `+` |
| Text.JsNumber | src/modules/mendotran/mendotran.ts:172 | unary `+` of a digit string is its decimal value |
| Arrivals.NormalizeAll | src/modules/mendotran/mendotran.ts:43-49 | every arrival gets its time filled in, one for one |
| Arrivals.Insert | src/modules/mendotran/mendotran.ts:40-52 | inserting adds exactly the one arrival |
| Arrivals.SortByArrivalTime | src/modules/mendotran/mendotran.ts:36-55 | `sortByArrivalTime` returns the sorting specification: a single arrival with its time filled in, otherwise the stable sort of the filled-in arrivals |
| Arrivals.DueAtCons | src/modules/mendotran/mendotran.ts:51 | the arrivals due at a time, of a list with one more in front |
| Arrivals.ConsSorted | src/modules/mendotran/mendotran.ts:51 | an arrival no later than any of a sorted list, put in front, keeps the list sorted |
| Arrivals.SortedTail | src/modules/mendotran/mendotran.ts:51 | the tail of a sorted list is sorted |
| Arrivals.InsertSorted | src/modules/mendotran/mendotran.ts:40-52 | inserting into a sorted list keeps it sorted and adds just that arrival |
| Arrivals.InsertStable | src/modules/mendotran/mendotran.ts:40-52 | an inserted arrival goes after every arrival due at its own time |
| Arrivals.DueAtFront | src/modules/mendotran/mendotran.ts:40-52 | an arrival earlier than all of a sorted list, put in front, is due alone at its time |
| Arrivals.DueAtStep | src/modules/mendotran/mendotran.ts:40-52 | the same arrival in front of two lists keeps how their due-at lists relate |
| Arrivals.DueAtNone | src/modules/mendotran/mendotran.ts:51 | no arrival of a sorted list that starts after `t` is due at `t` |
| Arrivals.InsertionSortSorted | src/modules/mendotran/mendotran.ts:40-52 | the sort orders the arrivals by time |
| Arrivals.InsertionSortPermutes | src/modules/mendotran/mendotran.ts:40-52 | the sort keeps every arrival, as often as it occurs |
| Arrivals.InsertionSortStable | src/modules/mendotran/mendotran.ts:40-52 | the sort keeps arrivals due at the same time in their original order, as `Array.prototype.sort` does |
| Arrivals.SortByArrivalTimeCorrect | src/modules/mendotran/mendotran.ts:36-55 | for any list but a single arrival, the result is sorted by time, a permutation of the filled-in arrivals and stable |
| Arrivals.NormalizeMeaning | src/modules/mendotran/mendotran.ts:38-49 | a set time is kept; a missing one becomes the prediction when there is one and the schedule otherwise; nothing else changes |
| Arrivals.ArrivalLines | src/modules/mendotran/mendotran.ts:107-155 | the lines of one arrival: the time line, then "arriving" or the time left and the punctuality line |
| Arrivals.ArrivingWithinAMinute | src/modules/mendotran/mendotran.ts:153-155 | a bus due within the minute, or overdue, is shown as arriving with nothing else |
| Arrivals.MinutesLeftShown | src/modules/mendotran/mendotran.ts:131-133 | below an hour the minutes are shown, with a plural "s" from 2 on |
| Arrivals.HoursLeftShown | src/modules/mendotran/mendotran.ts:113-129 | from an hour on the hours are the whole hours left, the minute part shows only when non-zero, and the closing emoji changes at 90 and 120 minutes |
| Arrivals.DelayClasses | src/modules/mendotran/mendotran.ts:135-152 | no prediction is "planned"; otherwise less than a minute early is on time, a minute or more early is "antes" and any lateness is "tarde" |
| Arrivals.LateRemarks | src/modules/mendotran/mendotran.ts:145-147 | a late bus gets at most one remark: none below ten minutes, then one per band at 10, 15 and 20 minutes |
| Arrivals.MinutesRoundDown | src/modules/mendotran/mendotran.ts:110 | the minutes left are rounded down, so a bus less than a minute away counts 0 and an overdue one a negative number |
| Arrivals.VisibleUpTo | src/modules/mendotran/mendotran.ts:74-83 | no more arrivals are rendered than are examined |
| Arrivals.Examined | src/modules/mendotran/mendotran.ts:74 | the loop examines no more than the limit and the list length, and stops at one of them |
| Arrivals.JoinedNonEmpty | src/modules/mendotran/mendotran.ts:99-108 | the text is non-empty exactly when at least one arrival was rendered |
| Arrivals.TimeLineNonEmpty | src/modules/mendotran/mendotran.ts:108 | every arrival's lines are non-empty |
| Arrivals.JoinedPrefix | src/modules/mendotran/mendotran.ts:74-156 | the text of the first `k` arrivals depends on those arrivals only |
| Arrivals.VisiblePrefix | src/modules/mendotran/mendotran.ts:74-83 | a shorter prefix of the arrivals renders a prefix of the same list |
| Arrivals.RenderArrivals | src/modules/mendotran/mendotran.ts:72-156 | the loop renders, in order, the examined arrivals that have a service reference, and fails when a line whose header it prints has no colour in the bus table |
| Arrivals.RenderOne | src/modules/mendotran/mendotran.ts:75-155 | one iteration skips an arrival without reference, fails on a header without colour, and otherwise extends the rendered text by that arrival |
| Arrivals.AppendArrival | src/modules/mendotran/mendotran.ts:84-108 | an arrival of a new line adds the separation, the coloured header and its lines, and fails exactly when its line has no colour; an arrival of the same line adds only a blank line and its lines |
| Arrivals.RenderStep | src/modules/mendotran/mendotran.ts:75-155 | one iteration keeps the loop invariants |
| Arrivals.RenderFails | src/modules/mendotran/mendotran.ts:87 | a new line without colour makes the rendered prefix fail |
| Arrivals.VisibleColorsPrefix | src/modules/mendotran/mendotran.ts:74-156 | a failing prefix makes every longer one fail |
| Arrivals.JoinedSnoc | src/modules/mendotran/mendotran.ts:99-108 | rendering one more arrival appends its separation, its header when its line changes, and its lines |
| Arrivals.ColorsKnownSnoc | src/modules/mendotran/mendotran.ts:85-87 | an arrival whose header's colour is known keeps every shown colour known |
| Arrivals.ArrivalsToString | src/modules/mendotran/mendotran.ts:65-159 | `arrivalsToString` gives the arrival text specification |
| Arrivals.NothingToRender | src/modules/mendotran/mendotran.ts:66-67 | no arrivals, or no references, render as the empty text |
| Arrivals.VisibleMeaning | src/modules/mendotran/mendotran.ts:74-83 | the rendered arrivals are exactly those among the examined ones that have a service reference |
| Arrivals.HeaderRule | src/modules/mendotran/mendotran.ts:72-105 | unfolds the header condition: the first rendered arrival needs one unless its service id is 0, a later one exactly when the line changes |
| Arrivals.SkippedArrivalKeepsLine | src/modules/mendotran/mendotran.ts:80-105 | an arrival without reference between two of the same line does not reset the line, so no second header is printed |
| Arrivals.JoinedStep | src/modules/mendotran/mendotran.ts:99-108 | the text of `k` arrivals is that of the first `k - 1` followed by the header with its separation, or a blank line, and then the arrival's lines |
| Arrivals.JoinedGrows | src/modules/mendotran/mendotran.ts:99-108 | rendering only appends: the text of the first arrivals is a prefix of the text of more of them |
| Arrivals.HeaderPrinted | src/modules/mendotran/mendotran.ts:80-108 | in the whole rendered text, each rendered arrival follows the text of those before it and its separation (a blank line, except before the first arrival's header), and shows its line's header exactly when its line differs from the previous rendered arrival's, then its own lines |
| Arrivals.JoinedUnfold | src/modules/mendotran/mendotran.ts:99-108 | one more rendered arrival appends exactly its separation and what it shows |
| Mendotran.HandleErrorsCases | src/modules/mendotran/mendotran.ts:305-323 | a `CommandError` passes unchanged; a timeout gets the timeout text, another named error the text with its name, anything else the unknown-error text, none of them with options |
| Mendotran.NamedErrorsDiffer | src/modules/mendotran/mendotran.ts:317-319 | two errors with different names give different texts |
| Mendotran.LeadingMs | src/modules/mendotran/mendotran.ts:172 | the count of leading M's, in either case, is exact |
| Mendotran.StopCodeFormMeaning | src/modules/mendotran/mendotran.ts:172 | the code has the stop-code form exactly when it splits into one or more M's followed by one or more digits |
| Mendotran.ResolveStop | src/modules/mendotran/mendotran.ts:181-189 | a resolved stop is in the stop table |
| Mendotran.BusGiven | src/modules/mendotran/mendotran.ts:191-205 | a given line is non-empty, as `if (bus)` demands |
| Mendotran.FilterByService | src/modules/mendotran/mendotran.ts:207-210 | `filter` keeps the arrivals of the service in order |
| Mendotran.FilteredMeaning | src/modules/mendotran/mendotran.ts:207-210 | the filter keeps exactly the arrivals of the service and no more than there were |
| Mendotran.StopReply | src/modules/mendotran/mendotran.ts:198-222 | the `then` callback: "no arrivals at the stop" for a missing or empty answer, "no arrivals for the line" when the filter leaves none, and otherwise the title, the arrival text limited to 5 or 10, and the location |
| Mendotran.GetStopArrivals | src/modules/mendotran/mendotran.ts:167-226 | `getStopArrivals` refuses a missing database, a malformed code, an unknown stop and a line that does not stop there, each with its message, and otherwise gives the reply to the request's answer, a failed request going through `handleErrors` |
| Mendotran.AwaitStop | src/modules/mendotran/mendotran.ts:198-225 | the `then` and `catch` of the request give the reply or the error `handleErrors` makes of the rejection |
| Mendotran.MalformedRefused | src/modules/mendotran/mendotran.ts:172-177 | a code that is neither of the stop-code form nor a number is refused with the format hint before any lookup |
| Mendotran.WellFormedCodes | src/modules/mendotran/mendotran.ts:172 | codes like `M1234` (any number of M's, either case) and digit strings are accepted |
| Mendotran.ResolutionOrder | src/modules/mendotran/mendotran.ts:181-189 | the code, then M plus the code, then L plus the code are tried, the first in the table wins, and it fails with the unknown-stop text only when none is there |
| Mendotran.BusNotServedRefused | src/modules/mendotran/mendotran.ts:191-196 | a line not in the resolved stop's bus list is refused with its message before the request |
| Mendotran.SortKeepsServices | src/modules/mendotran/mendotran.ts:36-55 | sorting keeps the number of arrivals and the service of each |
| Mendotran.ShownWithin | src/modules/mendotran/mendotran.ts:74 | no more arrivals are rendered than the limit and than the list holds, and each comes from the list |
| Mendotran.StopLimits | src/modules/mendotran/mendotran.ts:205-219 | with a line given at most 5 arrivals are rendered, all of that line's service; without one at most 10 |
| Mendotran.StripAccents | src/modules/mendotran/mendotran.ts:281-285 | each character has its accent stripped in place |
| Mendotran.FirstMatch | src/modules/mendotran/mendotran.ts:288-300 | a match found lies among the stations still to try |
| Mendotran.SearchMetroStop | src/modules/mendotran/mendotran.ts:275-303 | `searchMetroStop` refuses a missing database and otherwise tries the stations in table order |
| Mendotran.FirstMatchMeaning | src/modules/mendotran/mendotran.ts:288-300 | the first match matches and no station before it does; no match means no station matches |
| Mendotran.SearchFindsFirst | src/modules/mendotran/mendotran.ts:281-302 | the station found is the first in table order whose name matches the accent-stripped query; the search fails with the not-found text only when none matches |
| Mendotran.AccentsIgnored | src/modules/mendotran/mendotran.ts:281-285 | a query and its accent-stripped form give the same result |
| Mendotran.StripIdempotent | src/modules/mendotran/mendotran.ts:281-285 | stripping accents twice is stripping once |
| Mendotran.StripThenLower | src/modules/mendotran/mendotran.ts:281-295 | upper-casing before stripping accents changes nothing once the result is lowered |
| Mendotran.QueryCaseIgnored | src/modules/mendotran/mendotran.ts:291-295 | an upper-cased query finds a station exactly when the query does, and the same one |
| Mendotran.SameMatches | src/modules/mendotran/mendotran.ts:288-300 | two queries that match the same stations find the same first one |
| Mendotran.PlatformArrivals | src/modules/mendotran/mendotran.ts:239-248 | a platform's arrivals are sorted and cut to three, remembering how many were beyond the three |
| Mendotran.PlatformPart | src/modules/mendotran/mendotran.ts:252-256 | a platform's text is its arrival text or the "none" line, then the "more on the way" line |
| Mendotran.StationTextOf | src/modules/mendotran/mendotran.ts:250-261 | the station's text from its two platforms |
| Mendotran.MetroText | src/modules/mendotran/mendotran.ts:239-261 | the station's text from the two answers |
| Mendotran.GetMetroArrivals | src/modules/mendotran/mendotran.ts:233-266 | `getMetroArrivals` searches the station, queries both platforms and gives the station text, a failure going through `handleErrors` |
| Mendotran.KeptMeaning | src/modules/mendotran/mendotran.ts:243-248 | a platform shows at most its first three arrivals, all of them when there are no more, and the rest is counted exactly |
| Mendotran.MoreLineCount | src/modules/mendotran/mendotran.ts:253-256 | the "more on the way" line appears exactly when arrivals were cut, and its number plus those shown is the total |
| Mendotran.PlatformShowsAtMostThree | src/modules/mendotran/mendotran.ts:247-252 | a platform's arrival text renders at most three arrivals |
| Mendotran.NoStationArrivalsRule | src/modules/mendotran/mendotran.ts:250-261 | the station reports no arrivals exactly when neither platform has any; otherwise its text starts with the station's title |
| Mendotran.TitleIsNotNoArrivals | src/modules/mendotran/mendotran.ts:251-260 | a station's text never reads as the "no arrivals at the station" line |
| StopDatabase.BuildStops | src/modules/mendotran/generateDatabase.ts:19-40 | the stop loop, with its `continue` for a repeated code, leaves the stop table and the id dictionary of the stop-fold specification |
| StopDatabase.FirstStop | src/modules/mendotran/generateDatabase.ts:22-27 | the position found holds a complete stop record with that code |
| StopDatabase.StopsFirstWins | src/modules/mendotran/generateDatabase.ts:20-40 | a code is stored exactly when some complete record has it, and the first such record wins; the dictionary points only at stored stops, at the one the id belongs to |
| StopDatabase.StopStepValid | src/modules/mendotran/generateDatabase.ts:24-36 | one record keeps the dictionary pointing at stored stops |
| StopDatabase.StopIgnored | src/modules/mendotran/generateDatabase.ts:22-39 | a record that lacks a field or repeats a stored code changes nothing |
| StopDatabase.BuildBuses | src/modules/mendotran/generateDatabase.ts:56-73 | the bus loop leaves the bus table of the bus-fold specification, with its keys in the order they were added |
| StopDatabase.FirstBus | src/modules/mendotran/generateDatabase.ts:58-62 | the position found holds a complete bus record with that code |
| StopDatabase.BusesValid | src/modules/mendotran/generateDatabase.ts:59-69 | the insertion order lists each stored code once and nothing else |
| StopDatabase.BusesFirstWins | src/modules/mendotran/generateDatabase.ts:57-73 | a code is stored exactly when some complete bus record has it, with the service id of the first such record and the colour `getBusColor` gives its code |
| StopDatabase.IndexKeys | src/modules/mendotran/generateDatabase.ts:88 | the keys set aside as array indices are all array indices |
| StopDatabase.NamedKeys | src/modules/mendotran/generateDatabase.ts:88 | the other keys are not array indices |
| StopDatabase.InsertKey | src/modules/mendotran/generateDatabase.ts:88 | inserting adds exactly the one key |
| StopDatabase.SplitKeys | src/modules/mendotran/generateDatabase.ts:88 | the index keys and the named keys together are all the keys |
| StopDatabase.SortKeysPermutes | src/modules/mendotran/generateDatabase.ts:88 | sorting the index keys keeps each key as often as it occurs |
| StopDatabase.InsertKeyBound | src/modules/mendotran/generateDatabase.ts:88 | inserting a key keeps a lower bound on the values |
| StopDatabase.ConsAscending | src/modules/mendotran/generateDatabase.ts:88 | a key no larger than any of an ascending list, put in front, keeps it ascending |
| StopDatabase.InsertKeyAscending | src/modules/mendotran/generateDatabase.ts:88 | inserting into an ascending list keeps it ascending |
| StopDatabase.SortKeysAscending | src/modules/mendotran/generateDatabase.ts:88 | the index keys are visited in ascending numeric order |
| StopDatabase.ForInPermutes | src/modules/mendotran/generateDatabase.ts:88 | `for..in` visits every key exactly as often as it was added |
| StopDatabase.SortKeysLength | src/modules/mendotran/generateDatabase.ts:88 | sorting keeps the number of keys |
| StopDatabase.PermutedIndexKeys | src/modules/mendotran/generateDatabase.ts:88 | reordering keeps every key an array index |
| StopDatabase.ForInIndexKeysFirst | src/modules/mendotran/generateDatabase.ts:88 | `for..in` visits the array-index keys first, in ascending numeric order, and the other keys after them |
| StopDatabase.ForInVisitsKeys | src/modules/mendotran/generateDatabase.ts:88 | the keys `for..in` visits are exactly the keys of the bus table |
| StopDatabase.AttachBuses | src/modules/mendotran/generateDatabase.ts:86-110 | the line loop and its inner loop over stop ids leave the stop table and the flag of the attachment specification |
| StopDatabase.AttachLineMeaning | src/modules/mendotran/generateDatabase.ts:93-106 | one line's stop ids keep every stop's id and location, push the line once per occurrence of the stop's id, and raise the flag exactly when some id is known |
| StopDatabase.AttachKeys | src/modules/mendotran/generateDatabase.ts:88-110 | attaching lines keeps the keys of the stop table |
| StopDatabase.AttachLines | src/modules/mendotran/generateDatabase.ts:88-110 | after the loop each stop has the same id and location, and its line list gained, in visiting order, each line once per occurrence of the stop's id in that line's stop list |
| StopDatabase.AttachAdded | src/modules/mendotran/generateDatabase.ts:86-110 | the flag is raised exactly when some line has a non-empty stop list with a known stop in it |
| StopDatabase.SomeLineKnownStep | src/modules/mendotran/generateDatabase.ts:88-110 | one more line raises the "some known stop" fact exactly when its own stop list holds one |
| StopDatabase.GetMendotranDatabase | src/modules/mendotran/generateDatabase.ts:8-114 | `getMendotranDatabase`, up to the file writes, gives the tables or the error of the whole function as written |
| StopDatabase.MessagesDistinct | src/modules/mendotran/generateDatabase.ts:79-81 | the bus-table error text differs from every other error text |
| StopDatabase.BusTableCheckNeverFires | src/modules/mendotran/generateDatabase.ts:46-81 | as written the bus-table error is never raised, since the table it tests was already checked to be non-empty |
| StopDatabase.EmptyBusTableMisreported | src/modules/mendotran/generateDatabase.ts:58-114 | one complete stop and one bus record without a colour: as written the run fails with the attachment error, the intended check fails with the bus-table error |
| StopDatabase.IntendedBusTableCheck | src/modules/mendotran/generateDatabase.ts:78-81 | the intended check raises the bus-table error exactly when the stop phase and the bus search succeed but no bus record is complete, and otherwise agrees with the code as written |
| StopDatabase.IntendedSuccessShape | src/modules/mendotran/generateDatabase.ts:53-114 | an intended run that succeeds has a non-empty bus table, a raised flag, and gives the attached stop table with that bus table |
| StopDatabase.AddedMeansListed | src/modules/mendotran/generateDatabase.ts:96-100 | once the flag is raised some stop of the table lists a line |
| StopDatabase.IntendedSuccess | src/modules/mendotran/generateDatabase.ts:78-114 | an intended run that succeeds has at least one bus and some stop that lists a line |
| StopDatabase.LinesAtGrows | src/modules/mendotran/generateDatabase.ts:93-97 | a line whose stop list holds the stop's id gives that stop a non-empty line list |
| StopDatabase.HitsPositive | src/modules/mendotran/generateDatabase.ts:96 | a stop id that maps to the code counts for it |
| LegacyDatabase.LeadingDigits | src/modules/mendotran/generate_database.ts:29 | the digit run taken is a prefix made only of digits and is not followed by a digit |
| LegacyDatabase.FirstDigitAt | src/modules/mendotran/generate_database.ts:29 | the position found holds a digit and no digit comes before it; none is found only when the short name has no digit |
| LegacyDatabase.FirstDigitRunMeaning | src/modules/mendotran/generate_database.ts:29 | `match(/\d+/)` finds a run exactly when the short name holds a digit; the run is non-empty, made of digits, starts at the first digit and is maximal |
| LegacyDatabase.LegacyColorIndex | src/modules/mendotran/generate_database.ts:78 | `busColor` always indexes inside the ten-entry colour table |
| LegacyDatabase.MetroLines | src/modules/mendotran/generate_database.ts:80-81 | the lines written "100" and "101" get the metro emoji |
| LegacyDatabase.LegacyAgreesInRange | src/modules/mendotran/generate_database.ts:78-84 | from 100 to 999, other than the metro lines, the older rule gives the colour of the hundreds digit, the same as `getBusColor` |
| LegacyDatabase.LegacyOutOfRange | src/modules/mendotran/generate_database.ts:78-83 | a line number below 100 or above 1000 gets the entry for no colour |
| LegacyDatabase.ThousandColours | src/modules/mendotran/generate_database.ts:78-83 | line 1000 takes the colour of the 100s under the older rule, where `getBusColor` gives the entry for no colour |
| LegacyDatabase.ThousandLegacyColour | src/modules/mendotran/generate_database.ts:78-83 | line 1000 takes the colour of its leading digit 1 |
| LegacyDatabase.InfoFails | src/modules/mendotran/generate_database.ts:27-34 | once a short name without digits is met, building the list fails for good with that error |
| LegacyDatabase.GetBusesInfo | src/modules/mendotran/generate_database.ts:21-39 | `get_buses_info` gives what the route-list specification gives: nothing for an answer without a non-empty list, the list built from every route, or the error of the first route without digits |
| LegacyDatabase.InfoMeaning | src/modules/mendotran/generate_database.ts:26-35 | the list is built exactly when every short name holds a digit; it has one entry per route, in order, with the first digit run as line, the route's id and short name and an empty colour |
| LegacyDatabase.LineNumbersAreDigits | src/modules/mendotran/generate_database.ts:29 | every line number of a built list is a non-empty run of digits, so the scan's `linea &&` test never skips a bus |
| LegacyDatabase.AddStops | src/modules/mendotran/generate_database.ts:92-107 | the inner loop over a bus's stops leaves the stop table and `nStops` of the stop-fold specification |
| LegacyDatabase.StopVisitMeaning | src/modules/mendotran/generate_database.ts:94-106 | a stop met for the first time is created with its id, its trimmed address and the line, and counted; a stop met again keeps its id and address and gains the line at the end; no other stop changes |
| LegacyDatabase.StopsUpToOccurrences | src/modules/mendotran/generate_database.ts:93-107 | after a bus's stop list a stop exists exactly when it existed before or its name occurs in the list, and it holds its former lines followed by the bus's line once per occurrence |
| LegacyDatabase.AddBus | src/modules/mendotran/generate_database.ts:74-114 | one pass of the bus loop's body gives the state of the bus-visit specification, including the `continue` when no stop list is found |
| LegacyDatabase.AddBuses | src/modules/mendotran/generate_database.ts:72-116 | the loop over one query's buses gives the state of the bus-fold specification |
| LegacyDatabase.BusVisitCounts | src/modules/mendotran/generate_database.ts:77-113 | a line already stored changes nothing; a new line is stored with its colour whether or not its stops are found, and counted only when they are |
| LegacyDatabase.ScanFails | src/modules/mendotran/generate_database.ts:67-70 | a query whose list fails ends the scan with that error |
| LegacyDatabase.GetMendotranDatabase | src/modules/mendotran/generate_database.ts:56-120 | `get_mendotran_database`, up to the file write, gives the state the scan specification reaches after the 81 queries 0 through 80, or the error of the first failing query |
| LegacyDatabase.ListUpToAppend | src/modules/mendotran/generate_database.ts:73-116 | running the bus loop on two lists one after the other is running it on their concatenation |
| LegacyDatabase.ScanSucceeds | src/modules/mendotran/generate_database.ts:67-120 | the scan fails exactly when some query's list fails |
| LegacyDatabase.StepGather | src/modules/mendotran/generate_database.ts:70-119 | one more query on the state reached by the buses gathered so far reaches the state of the buses gathered with it |
| LegacyDatabase.ScanIsOneList | src/modules/mendotran/generate_database.ts:67-120 | the scan ends in the state the bus loop reaches on all the buses answered, query after query, in one list |
| LegacyDatabase.FirstWith | src/modules/mendotran/generate_database.ts:77 | the position found holds a bus with that line number and none before it does |
| LegacyDatabase.FirstBusWins | src/modules/mendotran/generate_database.ts:76-87 | a non-empty line number is stored exactly when some bus has it, and what is stored is the first such bus with the line's colour |
| LegacyDatabase.StopVisitValid | src/modules/mendotran/generate_database.ts:94-106 | one stop keeps `nStops` equal to the number of stops and every stop listing at least one line, all of them stored |
| LegacyDatabase.StopsUpToValid | src/modules/mendotran/generate_database.ts:93-107 | a whole stop list keeps those facts |
| LegacyDatabase.BusVisitValid | src/modules/mendotran/generate_database.ts:77-113 | one bus keeps the scan invariant: `nStops` counts the stops, no more buses are counted than stored, every stop lists stored lines and at least one, every bus is filed under its own line number with its colour |
| LegacyDatabase.ListUpToValid | src/modules/mendotran/generate_database.ts:73-116 | a query's bus list keeps the scan invariant |
| LegacyDatabase.ScanUpToValid | src/modules/mendotran/generate_database.ts:67-120 | every state the scan reaches, and so its result, satisfies the scan invariant |

## Left out

- Text.Lower / Text.Upper: case conversion covers ASCII letters only. JavaScript's `toLowerCase`/`toUpperCase` also map other Unicode letters.
- Text.Trim: only ASCII whitespace counts. JavaScript's `trim` also strips Unicode spaces and line terminators.
- Text.JsNumber: JavaScript's `Number(string)` is covered for blank strings (0) and for an optionally signed run of decimal digits with surrounding whitespace. Other numeric forms are treated as `NaN`: decimals, exponents, hexadecimal and `Infinity`. This avoids floating point.
- Cooldown.CooldownGuard.Check: the multipliers 1, 1.2, 1.4, 2 and 3 are kept in tenths, so every comparison is on integers. Times are integer milliseconds.
- Logging, `setInterval` scheduling, the command-timing log and the chat client itself are not modelled. `readResponse` is modelled as the list of calls it makes, in the order they are issued. When each call settles is not modelled.
- MessageSending.ReadResponse: the reaction of messageSending.ts:44 is not awaited. The plan puts its clear before the send and the reaction itself after the send, the order in which they are issued; the time at which either completes is not modelled.
- Concurrency is not modelled: several commands running at once, or the global `USERS_EXECUTING_COMMANDS` changing during a check. That set is an input.
- Responses.SendResponse: the body of `commandExists` (sendResponses.ts:4, :14) is not part of this model. It is modelled as the lookup of `search_command` (commands.ts:233-241): a non-empty name mapped exactly, case-sensitively, in the alias index. The same holds for Responses.LoopCheck.
- Mendotran.SearchMetroStop: the station-name regular expression is modelled as a search for a literal substring.
- Arrivals.Letrero: a sign's text (`letrero`) is cleaned by trimming and upper-casing only. The regular expressions that collapse double spaces and dashes are not modelled.
- Arrivals: the date's clock fields, and the emoji `timeToEmoji` picks, are inputs. Time zones and `Date` arithmetic are not modelled.
- Arrivals.SortByArrivalTime: `Array.prototype.sort` is modelled as a stable insertion sort on a `seq` with the same comparator, not as an in-place sort of the array. JavaScript's sort is stable, so the order is the same.
- Loading the JSON tables becomes an `Option`. So does the startup version check, which ends the process with `process.exit` (mendotran.ts:17-29).
- The file writes are not modelled: `guardarArchivos` (generateDatabase.ts:116-148) and the write at generate_database.ts:125-137. They are pure I/O.
- LegacyDatabase.GetBusesInfo: a rejected `fetch` is not modelled. The source does not catch it, and the model treats the server's answers as given.
- JSON `null` versus a missing field: every field the code tests is modelled as an `Option`. A field that is present but `null` is treated as missing.
- Coordinates, map positions, and the unused parts of the server's records are not carried.
- Object property order is modelled for `for..in` over the bus table: array-index keys first, ascending, then the rest in insertion order. Inherited prototype keys are not modelled.
- LegacyDatabase.LegacyColorIndex: defined for digit strings, with `+linea` as their decimal value. Every line number the scan stores is such a string (LegacyDatabase.LineNumbersAreDigits), so nothing the code reaches is lost.
- Where the repository's documentation describes `CommandsManager.add` differently, the model follows the code:
  - aliases are not lower-cased when they are registered;
  - a registration whose aliases all collide throws.

## Findings

| source | as written | input that shows it | evidently intended | confidence | as-written member | corrected member |
|---|---|---|---|---|---|---|
| src/modules/commands/commands.ts:73-76 | each colliding alias is spliced out of the copy at its index in the original. Once one alias has been removed, that index is stale | aliases x, y, z, with x and y already held by another command | remove exactly the aliases already in use | not executed | CommandRegistry.AddStealsAlias | CommandRegistry.IntendedNeverSteals |
| src/modules/commands/commands.ts:408-410,422-425 | `help` with no argument is called with its `null` default. `args.length > 0` holds, and `null.toLowerCase()` throws a TypeError | the message made of the prefix and "help" alone | show the help of `help` itself, as the `else` branch does | not executed | Dispatch.BareHelpThrows | Dispatch.BareHelpAnswered |
| src/modules/mendotran/generateDatabase.ts:79-81 | the check for an empty bus table tests the stop table, which was already checked to be non-empty | one complete stop and one bus record with no colour | fail with the bus-table error when no bus was stored | not executed | StopDatabase.EmptyBusTableMisreported | StopDatabase.IntendedBusTableCheck |
