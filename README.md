# Imperial Discord bot: a verified model of its command core

This project models the core of the Imperial Discord bot in Dafny:

- **Store.** The in-memory store of guild settings and user records.
- **Dispatch.** The message dispatcher: filter, prefix, tokenising, resolution by name or alias, channel restriction, permissions and the cooldown table.
- **Help.** The help command and its buttons.
- **Admin.** The admin command with its settings sub-options, plus the standalone `setchannel` and `welcome` commands.
- **Economy.** The daily, work, shop, transfer and inventory commands.
- **Games.** Slots, coinflip and trivia.
- **Moderation.** The moderation sub-options.
- **Errors.** The error handler.
- **Status.** The bot status record.

The modules follow the source files, one module per file. Some source code changes things in place. There the model is imperative:

- the store is a `Database` object whose two maps are reassigned;
- the guild settings and user records are objects that the handlers change;
- the cooldown table is an object;
- the trivia shuffle works on an `array`;
- the status file is a field of a `StatusStore` object.

Each such method is proved against a function from the state before to the reply and the state after. Lemmas about those functions carry the properties. Pure decisions are functions: routing, validation, the slots multiplier, paging, error classification and text formatting.

Inputs that are outside the bot's own code are passed in as parameters:

- the clock;
- every random draw;
- the member's permissions;
- the guild's channel cache;
- the mentioned user or channel;
- the fetched trivia question and the collected reaction;
- whether a platform call or a file operation succeeds.

Replies are values of an outcome datatype. The text and colour of the embeds are not modelled.

The user map stores `null` for a JavaScript `undefined`. Several handlers store `undefined` under a key built from the wrong arguments: `updateUser(user)`, and coinflip's `updateUser(user.id, …)`. The model keeps those writes exactly where the code puts them.

Two behaviours of the code worth noting:

- **Prefix.** The guild's stored prefix is read but never used. Only the global `!` is compared (`Dispatch.GuildPrefixIgnored`).
- **Permissions.** A command's permission list is checked with `every`. A member must hold all the listed permissions, not just one (`Dispatch.EveryPermissionNeeded`).

## Model

| member | source | states |
|---|---|---|
| Store.DefaultSettings | src/database/database.js:19-40 | a new guild's record has prefix `!`, no welcome channel, all four restrictions empty, no log channel, no custom messages, and automod off with limits 5 and 10 |
| Store.DefaultUser | src/database/database.js:101-117 | a new user record has balance 100, bank 0, no daily or work time, empty inventory and warnings, level 1, experience 0 |
| Store.Database.GetGuildSettings | src/database/database.js:16-46 | returns the stored record; on the first lookup the defaults are stored and returned, and later lookups create nothing |
| Store.Database.UpdateGuildSettings | src/database/database.js:79-82 | replaces exactly one guild's settings; every other guild and the user map are unchanged |
| Store.Database.GetUser | src/database/database.js:96-123 | returns the record under `guildId-userId`, created with the defaults when missing; no other key changes |
| Store.Database.UpdateUser | src/database/database.js:132-136 | replaces exactly the value under one key; every other key is unchanged |
| Store.Database.SetRestrictedChannel | src/database/database.js:145-168 | an unknown category throws before anything changes; otherwise only that category's channel changes |
| Store.Database.SetWelcomeChannel | src/database/database.js:177-191 | always writes the channel; writes the message only when it is non-empty |
| Store.Database.SetWelcomeDm | src/database/database.js:200-214 | always writes the flag; writes the message only when it is non-empty |
| Store.UserKeyInjective | src/database/database.js:97-102 | for snowflake ids, equal keys mean the same guild and user, so each guild holds separate records for one user |
| Store.RecordAsUserIdKeyIsNoUserKey | src/database/database.js:132-136 | the slot that `updateUser(record)` writes to is never the key of a real guild and user |
| Registry.FindByName | src/events/messageCreate.js:33 | finds the position of the command registered under the token, if there is one |
| Registry.FindByAlias | src/events/messageCreate.js:34 | finds the first command whose aliases contain the token; no earlier command has it |
| Registry.Resolve | src/events/messageCreate.js:33-37 | the exact name wins; otherwise the first alias match; otherwise nothing |
| Registry.ResolveFirstAlias | src/commands/help.js:27-28 | without a name match, an earlier alias wins over a later one |
| Dispatch.Pieces | src/events/messageCreate.js:29 | the text after the prefix, trimmed and split on runs of spaces; never empty |
| Dispatch.TokenIsFirstWord | src/events/messageCreate.js:29-30 | the token is the lower-cased first word of the trimmed text; the arguments are the remaining pieces, case kept |
| Dispatch.Blocking | src/events/messageCreate.js:40-56 | blocks exactly when the command has a category, the guild restricts it, the message is elsewhere and the restricted channel still exists |
| Dispatch.EveryPermissionNeeded | src/events/messageCreate.js:59-66 | a non-developer missing one of the listed flags is refused |
| Dispatch.Precheck | src/events/messageCreate.js:22-66 | gives, as iffs, when a message is ignored, restricted, denied or passed on, with the resolved command and arguments |
| Dispatch.GuildPrefixIgnored | src/events/messageCreate.js:22-26 | the outcome does not depend on the guild's stored prefix |
| Dispatch.RestrictionRejects | src/events/messageCreate.js:40-56 | a games command outside the restricted games channel is refused, whoever sends it |
| Dispatch.CooldownMs | src/events/messageCreate.js:77 | the window is the cooldown in milliseconds, or 3 s when the cooldown is 0 |
| Dispatch.CooldownStep | src/events/messageCreate.js:69-96 | inside the window the call is refused with a positive wait and the table is unchanged; otherwise exactly this user's stamp for this command becomes now |
| Dispatch.CooldownWindow | src/events/messageCreate.js:79-96 | after acceptance at t0, a call at t1 is refused exactly while t1 < t0 + window, with a wait of at most the window |
| Dispatch.RefusalKeepsStamp | src/events/messageCreate.js:82-93 | a refused call never moves the recorded time |
| Dispatch.Cooldowns.Check | src/events/messageCreate.js:69-96 | the table update and the wait are the cooldown step on the old table |
| Dispatch.Cooldowns.Admit | src/events/messageCreate.js:26-96 | the outcome is the precheck's on the given settings; a command that passes it is stopped exactly when the cooldown step finds a wait, and only such a command touches the table |
| Dispatch.Execute | src/events/messageCreate.js:13-104 | drops bot and direct messages with no state change; otherwise fetches the guild's settings, prechecks, and touches the cooldown table only for commands that pass |
| Help.Listed | src/commands/help.js:123-125 | the listing holds only visible commands of the category, and each of them as often as it is registered |
| Help.CategoryView | src/commands/help.js:123-140 | the "Category Empty" warning appears exactly when no command is listable |
| Help.CategoryViewExact | src/commands/help.js:123-140 | every registration of a visible command in the category appears, each as often as it is registered |
| Help.ListingUsageFallback | src/commands/help.js:178 | a listed command without a usage shows `!<name>` |
| Help.CommandFieldsShown | src/commands/help.js:282-320 | the usage field comes first and falls back to `!<name>`; the aliases, cooldown, category and permissions fields appear exactly when present |
| Help.CommandHelpFields | src/commands/help.js:282-320 | the fields pushed one by one are the specified field list |
| Help.BackButtonId | src/commands/help.js:335 | the button id is `help_<category>`, or `help_back` without a category |
| Help.HelpOf | src/commands/help.js:15-41 | a public category name wins over any command; otherwise resolution by name and then alias; a missing or hidden command is "not found" |
| Help.CategoryBeforeCommand | src/commands/help.js:22-24 | `!help Economy` lists the category even when a command is called `economy` |
| Help.HiddenNeverShown | src/commands/help.js:27-38 | no help reply shows a hidden command, by name or in a listing |
| Help.FormatManageGuild | src/commands/help.js:314-317 | an upper snake-case flag name is formatted as title-case words |
| Help.PermissionsShownAsNumbers | src/commands/help.js:314-317 | as written, the `Manage Guild` requirement is shown as `32`; as intended, it is shown as `Manage Guild` |
| Help.AsWrittenShowsFlagBits | src/commands/help.js:314-317 | as written, every flag is shown as its decimal number |
| Interaction.Route | src/events/interactionCreate.js:11-29 | non-buttons and ids without `help_` are ignored; `back` shows all; a public category shows that category; anything else is only acknowledged |
| Interaction.Segment | src/events/interactionCreate.js:17 | the second `_`-separated segment exists and holds no `_` |
| Interaction.ErrorNoticeOf | src/events/interactionCreate.js:35-45 | a follow-up exactly when the interaction was deferred or replied to |
| Interaction.FailureAfterAcknowledgement | src/events/interactionCreate.js:15-45 | a failure after `deferUpdate` is reported as a follow-up |
| Interaction.BackButtonRoute | src/events/interactionCreate.js:14-29 | the help back button opens the public category or the overview; for `moderation` and `admin` it is only acknowledged |
| Interaction.OverviewButtonsRoute | src/events/interactionCreate.js:26-29 | each overview button opens its category |
| Admin.RouteAdmin | src/commands/admin/admin.js:17-61 | only the developer or a Manage Server member passes the gate; the lower-cased option picks the handler; unknown options are refused |
| Admin.AnnouncementAlias | src/commands/admin/admin.js:38-40 | `announce` and `announcement` reach the same handler |
| Admin.SetChannelSpec | src/commands/admin/admin.js:263-312 | validates the category and the channel; `none` clears the restriction; only that category changes |
| Admin.SetChannelOnlyThatCategory | src/commands/admin/admin.js:268-298 | other categories and all other fields are unchanged |
| Admin.SetChannel | src/commands/admin/admin.js:263-312 | the stored settings and the reply are the spec's; other guilds are unchanged |
| Admin.SetModLogsSpec | src/commands/admin/admin.js:321-365 | sets or clears (on `none`) the log channel; refuses an unknown channel |
| Admin.SetModLogs | src/commands/admin/admin.js:321-365 | the stored settings and the reply are the spec's |
| Admin.CustomMessageSpec | src/commands/admin/admin.js:374-436 | validates the type and the message, whose `length` in UTF-16 code units must not exceed 1000; only `customMessages[type]` is set, and the map is created when absent |
| Admin.AstralMessageRefused | src/commands/admin/admin.js:390-392 | the 1000 limit counts UTF-16 code units: a one-word message of more than 500 emoji is refused and nothing is stored |
| Admin.CustomMessageIsUsed | src/commands/admin/admin.js:379-404 | the stored message is the one the next moderation action of that type shows; other types are kept |
| Admin.CustomMessage | src/commands/admin/admin.js:374-436 | the stored settings and the reply are the spec's |
| Admin.ResetMessageSpec | src/commands/admin/admin.js:445-495 | `all` empties the map; a named type is deleted only when present; other types are kept |
| Admin.ResetUndoesSet | src/commands/admin/admin.js:379-495 | setting a new type and then resetting it restores the messages as they were |
| Admin.ResetFallsBack | src/commands/admin/admin.js:445-495 | after a reset, moderation of that type uses the built-in text |
| Admin.ResetMessage | src/commands/admin/admin.js:445-495 | the stored settings and the reply are the spec's |
| Admin.SetWelcomeSpec | src/commands/admin/admin.js:504-563 | `none` (any case) disables; a message longer than 1000 UTF-16 code units is refused with no change; the message is replaced only when given |
| Admin.SetWelcome | src/commands/admin/admin.js:504-563 | the stored settings and the reply are the spec's |
| Admin.WelcomeDmSpecAsWritten | src/commands/admin/admin.js:572-613 | as written, the flag is assigned before the length check |
| Admin.WelcomeDmSpec | src/commands/admin/admin.js:572-613 | with the check first, a refused message leaves the settings unchanged |
| Admin.WelcomeDmAsWrittenEnablesOnReject | src/commands/admin/admin.js:581-600 | as written, a refused over-long message still turns DMs on; as intended nothing changes |
| Admin.WelcomeDmAgreesOtherwise | src/commands/admin/admin.js:581-600 | the two versions differ only on that refusal |
| Admin.WelcomeDmAsWritten | src/commands/admin/admin.js:572-613 | the handler as written changes the stored record as the as-written spec says |
| Admin.WelcomeDm | src/commands/admin/admin.js:572-613 | the corrected handler changes the stored record as the corrected spec says |
| Admin.SettingOf | src/commands/admin/admin.js:627-634 | the five automod setting names are recognised and nothing else |
| Admin.SettingValueOf | src/commands/admin/admin.js:653-695 | switches accept only on/off; limits accept only a number of at least 1 |
| Admin.UpdateAutomodKeepsLimitsPositive | src/commands/admin/admin.js:655-697 | accepted updates keep both limits at least 1 |
| Admin.UpdateAutomodIdempotent | src/commands/admin/admin.js:655-697 | applying one update twice is applying it once |
| Admin.UpdateAutomodCommutes | src/commands/admin/admin.js:655-697 | updates of two different settings commute |
| Admin.AutomodSpec | src/commands/admin/admin.js:622-711 | only the named automod field changes; bad names or values change nothing |
| Admin.AutomodCommand | src/commands/admin/admin.js:622-711 | the stored settings and the reply are the spec's |
| SetChannelCommand.SpecAsWritten | src/commands/admin/setchannel.js:13-37 | checks the argument count, the category and the channel; on success exactly that category's channel is written |
| SetChannelCommand.AsWrittenNeverClears | src/commands/admin/setchannel.js:28-36 | every accepted call stores a channel, so a restriction can never be removed |
| SetChannelCommand.NoneIsRejected | src/commands/admin/setchannel.js:28-47 | `none` without a mention is refused as written, while the intended command clears the restriction |
| SetChannelCommand.AgreesExceptNone | src/commands/admin/setchannel.js:13-37 | apart from `none`, the command agrees with the intended one |
| SetChannelCommand.ExecuteAsWritten | src/commands/admin/setchannel.js:13-37 | the stored settings and the reply are the as-written spec's |
| WelcomeCommand.SubcommandOf | src/commands/admin/welcome.js:15-32 | no arguments or an unknown sub-command is refused; the lower-cased first argument picks one of three |
| WelcomeCommand.SetChannelSpec | src/commands/admin/welcome.js:41-74 | only the exact text `none` disables; the message after the channel is stored only when non-empty |
| WelcomeCommand.NoneIsCaseSensitive | src/commands/admin/welcome.js:43-48 | `None` is looked up as a channel and refused when none is found |
| WelcomeCommand.SetMessageSpecAsWritten | src/commands/admin/welcome.js:76-98 | as written, the welcome channel is cleared along with the message change |
| WelcomeCommand.SetMessageSpec | src/commands/admin/welcome.js:76-98 | as intended, only the message changes |
| WelcomeCommand.SetMessageAsWrittenDisables | src/commands/admin/welcome.js:81-84 | with welcome messages on, setting the message as written turns them off; the intended version keeps the channel |
| WelcomeCommand.DmMessageSpec | src/commands/admin/welcome.js:100-129 | `none` in any case turns DMs off and keeps the message; any other text turns them on with it |
| WelcomeCommand.DmOffThenOn | src/commands/admin/welcome.js:100-129 | turning DMs off and then on again with a text leaves them on with that text |
| WelcomeCommand.OnlyWelcomeFields | src/commands/admin/welcome.js:13-129 | no sub-command changes anything but the welcome fields |
| WelcomeCommand.Execute | src/commands/admin/welcome.js:13-129 | the stored settings and the reply are the spec's, with the corrected set-message |
| Daily.HoursAndMinutes | src/commands/economy/daily.js:28-30 | whole hours plus whole minutes of the remainder, bracketing the time left to the minute |
| Daily.Execute | src/commands/economy/daily.js:11-70 | claims exactly when there is no previous claim or a day has passed; adds 250 and stamps now; a refusal changes nothing; the bank is kept; `undefined` lands in the record-as-id slot |
| Work.MinutesAndSeconds | src/commands/economy/work.js:40-42 | whole minutes plus whole seconds, bracketing the time left to the second |
| Work.JobMessageFillsPlaceholder | src/commands/economy/work.js:71 | only the first `{amount}` is replaced by the amount |
| Work.JobsPayRange | src/commands/economy/work.js:6-15 | every job in the table pays a range with `0 <= min <= max` |
| Work.Execute | src/commands/economy/work.js:24-88 | works exactly when there is no previous time or 30 minutes have passed; the amount is the drawn job's minimum plus the draw, within the job's range, and the reply is the job's message with it filled in; the balance rises by it and the time becomes now; a refusal changes nothing |
| Work.Attend | src/commands/economy/work.js:36-71 | on the fetched record: the 30-minute check, then the amount added and the time stamped in place; `updateUser(user)` clears the `undefined-[object Object]` slot and no other entry changes |
| Shop.FirstMatch | src/commands/economy/shop.js:71-73 | the first catalog item whose lower-cased name or id equals the query |
| Shop.Route | src/commands/economy/shop.js:57-68 | no arguments or `list` shows the shop; an option other than buy or list is refused |
| Shop.ParseRequestAsWritten | src/commands/economy/shop.js:69-80 | the item name joins every argument after `buy`; the quantity is `parseInt(args[2]) || 1` and must be positive |
| Shop.AsWrittenQuantityIsOne | src/commands/economy/shop.js:69-80 | as written, every purchase that finds its item buys exactly one |
| Shop.AsWrittenRejectsExplicitQuantity | src/commands/economy/shop.js:69-80 | as written, `buy sword 3` finds nothing |
| Shop.NumericThirdArgumentDefeatsLookup | src/commands/economy/shop.js:69-80 | a numeric third argument makes every lookup fail |
| Shop.ParseRequest | src/commands/economy/shop.js:69-80 | as intended, a trailing number is the quantity and is not part of the name |
| Shop.ExplicitQuantityHonoured | src/commands/economy/shop.js:69-80 | as intended, `buy sword 3` buys three swords |
| Shop.ParseRequestAgreesWithoutQuantity | src/commands/economy/shop.js:69-80 | without a trailing number, the two readings agree |
| Shop.AddItemHeld | src/commands/economy/shop.js:125-137 | buying raises the held quantity of that id by the quantity and keeps every other id's |
| Shop.AddItemShape | src/commands/economy/shop.js:125-137 | at most one entry is appended, only for a new id, and ids stay unique |
| Shop.BuyItem | src/commands/economy/shop.js:113-141 | a balance below the cost changes nothing; otherwise the inventory is updated and the balance falls by exactly the cost and stays non-negative |
| Shop.Execute | src/commands/economy/shop.js:55-89 | the whole command with the intended quantity reading |
| Transfer.Validate | src/commands/economy/transfer.js:13-37 | refuses a missing argument, a missing target, oneself, a bot, or a non-positive or NaN amount, in that order |
| Transfer.Execute | src/commands/economy/transfer.js:11-58 | an insufficient balance changes neither record; otherwise the sender loses and the receiver gains exactly the amount, the sum is conserved, and no other record changes |
| Transfer.Move | src/commands/economy/transfer.js:40-58 | the balance check, then the move between the two records |
| Transfer.Pay | src/commands/economy/transfer.js:48-58 | the two records are changed and written under their own keys |
| Transfer.Settle | src/commands/economy/transfer.js:51-58 | with two distinct fetched records: the sender loses and the receiver gains exactly the amount, both are stored under their own keys, and no other entry changes |
| Inventory.MaxPages | src/commands/economy/inventory.js:35 | the ceiling of n / 10 |
| Inventory.PageItems | src/commands/economy/inventory.js:43-45 | one to ten items, those of positions (p-1)*10 onwards, in stored order |
| Inventory.List | src/commands/economy/inventory.js:17-45 | empty-inventory reply exactly when empty; an out-of-range page is refused; otherwise the page's items |
| Inventory.PagesPartition | src/commands/economy/inventory.js:43-45 | the pages read in order give every item exactly once |
| Inventory.ItemPage | src/commands/economy/inventory.js:43-45 | item i appears on page i/10+1 in slot i mod 10 |
| Inventory.Execute | src/commands/economy/inventory.js:11-63 | the reply is the listing of the fetched record; the record is created when missing and nothing else changes |
| Slots.MultiplierByDistinct | src/commands/games/slots.js:40-51 | 10 for three sevens, 7 for three gems, another triple 5, a pair 2, three distinct 0 |
| Slots.MultiplierSymmetric | src/commands/games/slots.js:40-51 | the order of the reels does not matter |
| Slots.Bet | src/commands/games/slots.js:18-23 | the bet is accepted exactly when it parses to a positive number |
| Slots.NetGainBounds | src/commands/games/slots.js:54-58 | a loss costs exactly the bet; a pair doubles it; no spin costs more than the bet; the display wins exactly when the multiplier is positive |
| Slots.Execute | src/commands/games/slots.js:11-59 | a bad bet changes nothing; otherwise the spin's effect on the record |
| Slots.Play | src/commands/games/slots.js:26-59 | refused when the bet exceeds the balance; otherwise the balance changes by bet*(multiplier-1) |
| Coinflip.Validate | src/commands/games/coinflip.js:13-24 | refuses fewer than two arguments, a choice other than heads or tails, and a non-positive or NaN bet |
| Coinflip.StakeFair | src/commands/games/coinflip.js:41-44 | a win pays +bet and a loss −bet; the two results pay opposite stakes |
| Coinflip.AsWrittenLosesStake | src/commands/games/coinflip.js:47 | as written, the stored balance differs from the intended one by the whole stake |
| Coinflip.ExecuteAsWritten | src/commands/games/coinflip.js:11-67 | the caller's record keeps its balance; `undefined` lands in the wrong slot; the reply shows the balance from before the flip |
| Coinflip.Execute | src/commands/games/coinflip.js:11-67 | as intended, the stake is applied to the caller's record under its own key |
| Trivia.Shuffled | src/commands/games/trivia.js:111-116 | the shuffle keeps the length |
| Trivia.ShuffledPermutation | src/commands/games/trivia.js:111-116 | the result is a permutation of the input |
| Trivia.ShuffledSettles | src/commands/games/trivia.js:111-116 | a position is final once its own swap is done |
| Trivia.Shuffle | src/commands/games/trivia.js:111-116 | the array after the loop is the specified shuffle, a permutation of the input |
| Trivia.Present | src/commands/games/trivia.js:27-28 | the shown answers are the correct answer and the incorrect ones, shuffled |
| Trivia.LabelAnswers | src/commands/games/trivia.js:31-37 | answer k is stored under label k |
| Trivia.LookupIsChosen | src/commands/games/trivia.js:64 | a reaction's lookup gives the answer shown next to its label |
| Trivia.CorrectLabelExists | src/commands/games/trivia.js:64-67 | with at most four answers some label leads to the correct one; with distinct answers exactly one does |
| Trivia.Reactions | src/commands/games/trivia.js:51-53 | one label per answer, in order, at most four |
| Trivia.Execute | src/commands/games/trivia.js:11-101 | a failed fetch or a timeout changes no record; an answer is correct exactly when its mapped answer is the correct one |
| Trivia.Settle | src/commands/games/trivia.js:70-76 | the balance rises by exactly 100 when correct and is otherwise unchanged |
| Moderation.RouteMod | src/commands/moderation/mod.js:19-111 | the lower-cased option picks the handler when the caller holds its permission |
| Moderation.PermissionTable | src/commands/moderation/mod.js:29-111 | ban needs Ban Members, slowmode Manage Channels, the rest Moderate Members; the developer passes all |
| Moderation.Reason | src/commands/moderation/mod.js:219 | the rest of the arguments joined, or `No reason provided` |
| Moderation.FormatCustomMessage | src/commands/moderation/mod.js:183-192 | the loop's result is the key-by-key rewrite of the template |
| Moderation.FormattedWithoutPlaceholders | src/commands/moderation/mod.js:183-192 | a template without `{` is kept as it is |
| Moderation.FormattedReplacesEveryOccurrence | src/commands/moderation/mod.js:186-189 | every occurrence of a key's placeholder is replaced |
| Moderation.FormattedRewritesValues | src/commands/moderation/mod.js:183-192 | a value holding a later key's placeholder is rewritten too |
| Moderation.LogChannel | src/commands/moderation/mod.js:255-256 | the configured log channel when it is set, exists and is not the excluded channel |
| Moderation.ParsedDuration | src/commands/moderation/mod.js:371-382 | m, h and d scale `parseInt` by 60 000, 3 600 000 and 86 400 000; any other suffix is refused |
| Moderation.CheckDuration | src/commands/moderation/mod.js:385-387 | as intended, accepted exactly for an integer from one minute to 28 days |
| Moderation.AsWrittenAcceptsNaN | src/commands/moderation/mod.js:385-387 | as written, a duration without digits (`h`) passes the bounds check |
| Moderation.AsWrittenDiffersOnlyOnNaN | src/commands/moderation/mod.js:385-387 | the written and intended checks differ exactly on NaN |
| Moderation.CheckDurationOfCount | src/commands/moderation/mod.js:371-387 | a count and a unit letter are read back as that many units and accepted within the bounds |
| Moderation.DurationLimitsPerUnit | src/commands/moderation/mod.js:385-387 | the counts accepted are 1 to 40320 minutes, 1 to 672 hours and 1 to 28 days |
| Moderation.DurationComponents | src/commands/moderation/mod.js:397-401 | days, hours under 24 and minutes under 60 recompose to the duration |
| Moderation.DurationTextEmptyIff | src/commands/moderation/mod.js:397-406 | the text is empty exactly for a duration under one minute |
| Moderation.DurationTextExample | src/commands/moderation/mod.js:402-406 | ninety minutes read `1 hour 30 minutes` |
| Moderation.DurationTextLongest | src/commands/moderation/mod.js:402-406 | 28 days read `28 days`, with the trailing space trimmed |
| Moderation.Timeout | src/commands/moderation/mod.js:352-459 | the timeout handler with the intended bounds check |
| Moderation.SlowmodeSeconds | src/commands/moderation/mod.js:574-578 | accepted exactly for an integer from 0 to 21600 |
| Moderation.SlowmodeOfCount | src/commands/moderation/mod.js:574-578 | a written count is accepted exactly when at most six hours |
| Moderation.Slowmode | src/commands/moderation/mod.js:555-621 | the slowmode handler's reply from the channel, the seconds and the platform's answer |
| Moderation.NextWarning | src/commands/moderation/mod.js:483-491 | the new warning's id is the previous count plus one |
| Moderation.WarningsNumbered | src/commands/moderation/mod.js:483-498 | starting empty, successive warnings are numbered 1, 2, 3, … |
| Moderation.AppendedKeepsIds | src/commands/moderation/mod.js:483-498 | warning ids stay equal to their positions |
| Moderation.Warn | src/commands/moderation/mod.js:461-553 | one warning is appended last under the target's key; the reported total is the new length |
| Moderation.AddWarning | src/commands/moderation/mod.js:478-498 | the store part of warn: fetch, append the next warning, write back |
| Moderation.NewestFirstSortsAndPermutes | src/commands/moderation/mod.js:653 | the listing is newest first and a permutation of the stored warnings |
| Moderation.NewestFirstStable | src/commands/moderation/mod.js:653 | warnings with equal timestamps keep their stored order |
| Moderation.Listing | src/commands/moderation/mod.js:640-680 | an empty list gives the no-warnings reply; otherwise the sorted warnings |
| Moderation.ListWarnings | src/commands/moderation/mod.js:623-680 | the stored list is unchanged; the record is created when missing |
| ErrorHandler.Classify | src/utils/errorHandler.js:14-25 | in order: "permissions", "rate limit", "Unknown Message" (silent), code 50013, else the default text |
| ErrorHandler.MessageBeforeCode | src/utils/errorHandler.js:16-25 | a "permissions" message with code 50013 gets the permissions text |
| ErrorHandler.HandleCommandError | src/utils/errorHandler.js:10-52 | silent exactly for a deleted message; an embed when the reply works (with details only in development); otherwise one plain `Error executing command: ` send |
| ErrorHandler.FallbackSameText | src/utils/errorHandler.js:40-51 | the fallback carries the same text as the embed |
| ErrorHandler.ApiErrorText | src/utils/errorHandler.js:60-64 | `There was an error <action>. Please try again later.`, with the action defaulting to `performing that action` |
| ErrorHandler.ApiErrorTextInjective | src/utils/errorHandler.js:64 | different actions give different texts |
| BotStatus.Merge | src/utils/bot-status.js:61-62 | every field the update sets is taken from it; every other field is kept |
| BotStatus.MergeThen | src/utils/bot-status.js:61-62 | two updates in a row are their combination applied once |
| BotStatus.MergeIdempotent | src/utils/bot-status.js:61-62 | applying one update twice is applying it once |
| BotStatus.OfflineKeeps | src/utils/bot-status.js:83-88 | going offline keeps servers, commands and the disabled flag |
| BotStatus.DisableThenEnable | src/utils/bot-status.js:97-108 | disabling and then enabling only clears the flag |
| BotStatus.FailedReadResetsRecord | src/utils/bot-status.js:50-65 | an update after a failed read replaces the stored record with the defaults under the update |
| BotStatus.StatusStore.GetBotStatus | src/utils/bot-status.js:38-54 | the stored record; a missing file is created with the defaults; a failed read yields the defaults |
| BotStatus.StatusStore.UpdateBotStatus | src/utils/bot-status.js:57-70 | the merged record is written and returned; a failed write returns nothing and leaves the file |
| BotStatus.StatusStore.MarkBotOnline | src/utils/bot-status.js:73-80 | online, with servers set to the count (0 by default) |
| BotStatus.StatusStore.MarkBotOffline | src/utils/bot-status.js:83-88 | offline, with the last-active time set to now |
| BotStatus.StatusStore.IsBotDisabled | src/utils/bot-status.js:91-94 | the flag of the current record |
| BotStatus.StatusStore.DisableBot | src/utils/bot-status.js:97-101 | only `isDisabled` changes, to true |
| BotStatus.StatusStore.EnableBot | src/utils/bot-status.js:104-108 | only `isDisabled` changes, to false |
| BotStatus.StatusStore.IncrementCommandCounter | src/utils/bot-status.js:111-117 | `commands` rises by exactly one and the last-active time becomes now |
| JsText.ToLower | src/events/messageCreate.js:30 | same length; ASCII letters are lowered, other characters kept |
| JsText.Utf16Length | src/commands/admin/admin.js:390 | `length` lies between the number of characters and twice that |
| JsText.Utf16LengthBmp | src/commands/admin/admin.js:390 | without astral characters, `length` is the number of characters |
| JsText.Utf16LengthAstral | src/commands/admin/admin.js:390 | every astral character counts as two code units |
| JsText.Trim | src/events/messageCreate.js:29 | the result is no longer than the input, neither starts nor ends with white space, and is empty exactly when the input is all white space |
| JsText.Split | src/events/messageCreate.js:29 | there is at least one piece and no piece holds a space |
| JsText.SplitOnJoin | src/events/interactionCreate.js:17 | the pieces of a split rejoin, with the separator, to the text |
| JsText.ParseInt | src/commands/economy/inventory.js:34 | NaN exactly when no digit follows the optional sign; otherwise the value of the leading digits |
| JsText.ParseIntOfNatToString | src/commands/moderation/mod.js:371-382 | printing a count and parsing it back gives the count |
| JsText.ReplaceFirstOnlyFirst | src/commands/economy/work.js:71 | only the first occurrence of the pattern is replaced |
| JsText.ReplaceAllRepeated | src/commands/moderation/mod.js:188 | every occurrence of the pattern is replaced |

## Left out

- Discord platform calls are outcome values or parameters. This covers sending, editing and reacting to messages; ban, kick, timeout and rate limits; member, channel and permission lookups; and the embeds' text, colours and emoji.
- Randomness is passed in as parameters. The slots reels, the coin, the work job and amount draws, and the trivia shuffle draws each arrive as a value in the range the source draws it from.
- The trivia question fetch and `decodeURIComponent` are left out. The fetched question is an input.
- The `setTimeout` that deletes cooldown entries is left out. An entry past its window behaves like a missing one.
- Time is integer milliseconds. Daily's next-day rule is modelled as 86 400 000 ms, so daylight-saving shifts are ignored. The float cooldown text (`toFixed(1)`) and date formatting are not modelled.
- `parseInt` is modelled for decimal text only. Hexadecimal prefixes and radix arguments are not covered. A `String.replace` value is taken literally, so `$` patterns are not modelled.
- The status file's filesystem calls are a single optional record, and one `Io` value says whether a read or a write fails. Directory creation, JSON parsing and the status HTTP API are not modelled.
- Concurrency is left out: every handler runs as one sequential step.
- Dispatch.Permitted: an empty permissions list is treated like a missing one. In JavaScript `[]` is truthy, so a non-developer whose permission lookup yields null is refused there, while the model lets them through. No command declares an empty list, so no command behaves differently.
- JsText.ToLower: only ASCII letters are lowered. JavaScript's full Unicode case mapping (`É` to `é`, the Kelvin sign to `k`) is not modelled.
- Registry.FindByName: command names are assumed distinct, as they are in the bot. With duplicate names the model picks the first command, while the collection keeps the last one registered.
- Dispatch.Execute stops at the hand-over to the command. The command's own effects are modelled by the handlers, and a thrown error by ErrorHandler.HandleCommandError.
- The admin sub-options `announce`, `embed` and `settings` are routed but not modelled. They only build and send messages from their arguments and the stored settings.
- The moderation handlers `ban` and `mute` are modelled only through their permission check, their reason default and their custom-message text. The platform call and the reply are their only other effects.
- The help overview (`showAllCategories`) is a fixed embed. Only its four buttons are modelled.
- The thin handlers (`ban`, `kick`, `info`, `ping`, `ready`, `dev`, `8ball`, `meme`, `balance`), `bot.js`, the keep-alive server and the dashboard pages are not part of this model.

## Findings

| source | as written | input that shows it | evidently intended | confidence | as-written member | corrected member |
|---|---|---|---|---|---|---|
| src/commands/games/coinflip.js:47 | `updateUser(user.id, { balance })` writes `undefined` under `"[object Object]-undefined"`; the record keeps its balance | `!coinflip heads 10` with balance 100: the stored balance stays 100, win or lose | the stake is applied to the caller's own record | high (not executed) | Coinflip.AsWrittenLosesStake | Coinflip.Execute |
| src/commands/economy/shop.js:69-77 | `args[2]` is both part of the joined item name and the quantity | `!shop buy sword 3`: the lookup is for "sword 3" and finds nothing | a trailing number is the quantity; the corrected reading refuses an explicit 0 (`BadQuantity`) rather than turning it into 1, which is a choice of this model | high (not executed) | Shop.AsWrittenRejectsExplicitQuantity | Shop.ExplicitQuantityHonoured |
| src/commands/admin/admin.js:586-593 | the DM flag is set on the stored record before the 1000-character check | `!admin welcomedm on <1001 ASCII characters>`: refused, yet DMs are now on | a refused command changes nothing | high (not executed) | Admin.WelcomeDmAsWrittenEnablesOnReject | Admin.WelcomeDm |
| src/commands/admin/welcome.js:81-84 | set-message passes a null channel to `setWelcomeChannel`, which always writes it | `!welcome set-message Hi` with a welcome channel set: the channel is cleared | only the message changes | high (not executed) | WelcomeCommand.SetMessageAsWrittenDisables | WelcomeCommand.SetMessage |
| src/commands/moderation/mod.js:385-387 | both comparisons are false for NaN, so a duration without digits passes | `!mod timeout @user h`: the bounds check accepts NaN | only 1 minute to 28 days is accepted | medium (not executed) | Moderation.AsWrittenAcceptsNaN | Moderation.CheckDuration |
| src/commands/admin/setchannel.js:28-47 | `none` is looked up as a channel id, although the footer offers it | `!setchannel games none`: refused, "could not find that channel" | `none` removes the restriction | medium (not executed) | SetChannelCommand.NoneIsRejected | Admin.SetChannelSpec |
| src/commands/help.js:314-317 | each permission flag is a number, so `toString()` gives its decimal value | `!help setchannel`: the permissions field reads `32` | `Manage Guild` | medium (not executed) | Help.PermissionsShownAsNumbers | Help.PermissionTexts |
