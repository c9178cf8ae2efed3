# telegram-totp-bot, modelled in Dafny

A Telegram bot that keeps TOTP secrets for its users and gives them
one-time codes. Its core has three parts, and this project models and
verifies all three.

- **The database** (`database.go`). It has three gorm tables:
  - TOTPs;
  - temporary TOTPs (the drafts of the creation dialog);
  - editable-message caches (the handles of inline keyboards that a later
    button press edits).

  Its functions insert, list, find, update and delete rows. The model is
  the value `Database.Tables`, with one function per Go function, plus the
  class `Database.Store`. The class holds the same tables and id counters
  as fields that its methods update in place, and each method is proved to
  do what the matching `Tables` function says.
- **The callback payload codec.** Inline buttons carry
  `"<command> <totpID>,<cancelableID>"` or `"/cancel <cancelableID>"`.
  `parseCallbackQueryData` decodes them:
  - `strings.Replace`, `strings.TrimSpace` and `strings.Split` on `,`;
  - `strconv.ParseUint` on each token, keeping every number and the last
    error.

  The modules `Text` and `Strconv` model the Go standard-library functions
  involved (ASCII only). `Callback` models the codec and proves that every
  payload the bot builds decodes back to the numbers it was built from.
- **The event handlers.** These are `handleMessage` and
  `handleCallbackQuery` in `bot.go`, and the update callback of
  `pollMessages` in `bot/bot.go`.
  - The two copies are one model with a `Variant`. The copy in `bot.go`
    knows `/privacy`, lists it in its help text and puts it on its reply
    keyboard, and it uses the bullet `"• "`. The copy in `bot/bot.go`
    has no `/privacy` anywhere. Its bullet is `"â€¢ "`: the UTF-8 bytes of
    `•` read as Windows-1252, exactly as they appear in the file. Each
    copy's help text is given by its "command : description" lines, and
    its reply keyboard by its rows of command buttons.
  - `Bot` gives the effect of each event as a function returning a
    `Reaction`: the tables afterwards, the Telegram calls made in order,
    and whether Go panicked.
  - Each event also has a method that performs it step by step on a
    `Store`, proved equal to that function.
  - Database failures, the message id Telegram returns and the TOTP
    algorithm are an `Env` parameter.
  - `BotProperties` proves what the handlers guarantee:
    - commands never touch TOTPs or drafts;
    - the /list reply has one line per TOTP;
    - every keyboard costs one handle, and each of its buttons decodes to a
      listed TOTP;
    - the creation dialog's steps;
    - the draft table's invariants, and how a failed lookup breaks one;
    - what each button does;
    - the round trips from keyboard to button press.

Behaviour the model exhibits because the code does it:

- A `/del` or `/otp` payload with one number panics: `ids[1]` is read
  before the error is checked (`BotProperties.SingleNumberPanics`).
- A `/del` button for a TOTP that is already gone still reports success
  (`BotProperties.PressDeleteButton`).
- A consumed handle is looked up with `Find`, which gives the zero record
  and no error. So a second Cancel press edits message 0
  (`BotProperties.PressCancelButton`).
- `/new` only prompts. The first free text is what creates a draft, named
  by that text (`BotProperties.NewOnlyAsksForName`,
  `BotProperties.NameStepOpensDraft`).
- The secret loses only whitespace at its ends. Spaces inside it are kept
  and upper-cased with the rest, so `" abc def "` is stored as `"ABC DEF"`
  (`Database.NormalizeSecretKeepsInterior`).
- A failed draft lookup is ignored and looks like "no draft", so a user can
  end up with two drafts (`BotProperties.LookupFailureDuplicatesDraft`).

## Model

| member | source | states |
|---|---|---|
| Text.UpperChar | database.go:37 | `strings.ToUpper` on one ASCII character: lower-case letters move up by 32, every other character is unchanged, and no lower-case letter is left |
| Text.TrimSpaceIsSlice | database.go:37 | `strings.TrimSpace` gives a contiguous slice of its input with only whitespace cut off on either side, and the slice neither starts nor ends with whitespace |
| Text.TrimSpaceAround | database.go:37 | trimming whitespace + a trimmed text + whitespace gives exactly that text |
| Text.ToUpperShape | database.go:37 | `strings.ToUpper` keeps the length, maps each character through UpperChar and leaves no lower-case ASCII letter |
| Text.ToUpperIdempotent | database.go:37 | upper-casing twice is upper-casing once |
| Text.IndexOf | bot.go:109 | `strings.Index`: the returned position is an occurrence with no earlier one; none means no occurrence anywhere |
| Text.ReplaceFirst | bot.go:109 | `strings.Replace(s, old, "", 1)` on a string that starts with old leaves exactly what follows that first occurrence |
| Text.ReplaceFirstOccurrence | bot.go:109 | `strings.Replace(s, old, "", 1)` removes the first occurrence of old and nothing else, and returns s when old is empty or absent |
| Text.Split | bot.go:109 | `strings.Split` on a character: one more piece than separators, and no piece contains the separator |
| Text.JoinSplit | bot.go:109 | joining the pieces of Split with the separator gives back the input |
| Text.SplitFirst | bot.go:109 | a separator-free piece, the separator and a rest split into that piece followed by the pieces of the rest |
| Text.SplitJoin | bot.go:144 | joining separator-free pieces and splitting again gives back the pieces |
| Text.Decimal | bot.go:162 | `%d` of a number is a non-empty string of decimal digits |
| Strconv.ScanDigits | bot.go:111 | the digit loop of ParseUint gives a value only for an all-digit input, and the value stays within uint64 |
| Strconv.ParseUint | bot.go:111 | `strconv.ParseUint(s, 10, 64)`: success only for a non-empty all-digit string within uint64; a syntax error gives 0 and a range error gives 2^64-1, each carrying the input; an empty string or one not starting with a digit is a syntax error |
| Strconv.ScanDigitsSnoc | bot.go:111 | scanning one more character continues from where the scan of the prefix ended |
| Strconv.ScanDecimal | bot.go:111 | scanning the digits of n from 0 gives n |
| Strconv.ParseUintDecimal | bot.go:111 | every uint64 printed with `%d` parses back to itself with no error |
| Strconv.ParseUintRejectsSignsAndSpaces | bot.go:111 | an empty token, a sign or a leading space is a syntax error with value 0 |
| Strconv.ScanDigitsValue | bot.go:111 | on a string of digits, the digit loop from zero ends with the value of the digits, or overflows exactly when that value exceeds 2^64-1 |
| Strconv.ParseUintDigits | bot.go:111 | `strconv.ParseUint` on any non-empty string of digits, leading zeros included: the value of the digits with no error when it fits in uint64, otherwise 2^64-1 and a range error carrying the input |
| Strconv.ParseUintOverflow | bot.go:111 | 2^64 is a range error that yields 2^64-1 |
| Callback.Tokens | bot.go:109 | the tokens number one more than the commas left after removing the command and trimming |
| Callback.Numbers | bot.go:110-113 | one number per token, in order, each being what ParseUint returned for it, failed tokens included |
| Callback.LastError | bot.go:114-116 | no error exactly when every token parsed; otherwise the error of a token after which every token parsed, that is, of the last token that failed |
| Callback.NextToken | bot.go:111-117 | parsing one more token appends its number to the result and, when it fails, makes its error the one returned |
| Callback.ParseCallbackQueryData | bot.go:106-120 | the loop returns Decode's numbers and error; there is one number per comma-separated token (never none), each within uint64 |
| Callback.TokensAfterCommand | bot.go:109 | for `command + " " + rest` with rest trimmed, the tokens are the comma-separated pieces of rest |
| Callback.SplitDecimals | bot.go:162 | two decimals joined by a comma are trimmed and split back into the two decimals |
| Callback.EntryTokens | bot.go:162 | an entry button's payload yields exactly its two decimal tokens |
| Callback.OneToken | bot.go:110-116 | a single token decodes to its own number and its own parse error |
| Callback.TwoTokens | bot.go:110-116 | two tokens decode to both numbers in order; the second token's error replaces the first's |
| Callback.DecodeEntryPayload | bot.go:162 | round trip: an entry button's payload decodes, with its own command, to [totpID, cancelableID] and no error |
| Callback.DecodeSingleNumber | bot.go:335-336 | a command followed by one number decodes to that number alone, with no error |
| Callback.DecodeNonNumber | bot.go:106-120 | a command followed by one token that is not a number decodes to [0] and that token's syntax error |
| Callback.DecodeCancelPayload | bot.go:167 | round trip: the Cancel button's payload decodes, with "/cancel", to [cancelableID] and no error |
| Callback.PartialTokens | bot.go:109 | a decimal, a comma and a trimmed comma-free token split into those two tokens |
| Callback.DecodeKeepsPartialResults | bot.go:110-117 | a non-numeric second token yields [id, 0] and that token's syntax error: the good numbers stay in place |
| Database.NormalizeSecretIdempotent | database.go:37 | normalising a secret twice is normalising it once |
| Database.NormalizeSecretKeepsInterior | database.go:37 | only whitespace at the ends is removed; the text between is kept, inner spaces included, and upper-cased |
| Database.NormalizeSecretShape | database.go:37 | a stored secret neither starts nor ends with whitespace and holds no lower-case ASCII letter |
| Database.Filter | database.go:52 | a WHERE clause keeps exactly the rows that satisfy it, and never more rows than there were |
| Database.FindFirst | database.go:59 | First/Find into a struct: a match when one exists, which satisfies the clause and is the first row the clause keeps; none exactly when no row matches |
| Database.FilterKeepsAll | database.go:52 | a clause every row satisfies keeps the table as it is |
| Database.AscendingCons | database.go:45 | a row with a smaller key before an ascending table keeps it ascending |
| Database.FilterAscending | database.go:66 | deleting rows keeps the remaining ids ascending |
| Database.FilterKeepsIds | database.go:66 | deleting rows keeps every remaining id positive, below the counter and ascending |
| Database.AppendKeepsIds | database.go:45 | Create with the next id keeps ids ascending and below the advanced counter |
| Database.Tables.SaveTotp | database.go:36-48 | on success, appends exactly one row with the next id, the user, the name and the normalised secret, returns that never-used id and changes nothing else; on failure returns id 0 and changes nothing |
| Database.Tables.ListTotps | database.go:51-55 | exactly the user's rows, with no error (an empty list is not an error); on failure an empty list and the error |
| Database.Tables.GetTotp | database.go:58-62 | the row with that user and id if there is one; "record not found" exactly when no row of that user has that id |
| Database.Tables.DeleteTotp | database.go:65-69 | removes exactly the rows with that user and that id and nothing else; succeeds when none matched, changing nothing |
| Database.Tables.GenerateTotp | database.go:72-81 | getTOTP's error, with "" as the code; otherwise the code of the secret of a row with that user and id |
| Database.Tables.GetTempTotp | database.go:84-88 | a draft of the user when there is one; the zero record and no error when there is none; on failure the zero record and the error |
| Database.Tables.SaveTempTotp | database.go:91-107 | always inserts a new draft with the next id, the user and the name; the passed id plays no part |
| Database.Tables.DeleteTempTotp | database.go:110-114 | removes exactly the drafts with that user and id; succeeds when none matched, changing nothing |
| Database.Tables.SaveEditableMessage | database.go:117-124 | appends one handle for the user with MessageID 0 and returns its never-used id |
| Database.Tables.UpdateEditableMessage | database.go:127-132 | sets the message id of the handle with that id, whoever owns it, and leaves every other row as it was |
| Database.Tables.DeleteEditableMessage | database.go:135-140 | removes exactly the handle with that id, whoever owns it; succeeds when none matched |
| Database.Tables.GetEditableMessage | database.go:143-147 | the handle with that id, or the zero record (MessageID 0) with no error when there is none |
| Database.IdsUnique | database.go:12 | in valid tables no two rows share a primary key |
| Database.SaveThenGetTotp | database.go:36-62 | getTOTP with the id SaveTOTP returned finds the saved row, with the normalised secret |
| Database.ListTotpsInTableOrder | database.go:51-55 | in valid tables the listed ids ascend, so the user's rows come in table order, the order of creation |
| Database.SaveThenListTotps | database.go:36-55 | a saved TOTP is listed for its owner, and another user's list is unchanged |
| Database.FilterAppendRejected | database.go:52 | a row the clause rejects, appended to the table, does not change what the clause keeps |
| Database.DeleteThenGetTotp | database.go:65-81 | after DeleteTOTP, getTOTP and GenerateTOTP both report "record not found" |
| Database.OtherUsersTotpNotFound | database.go:58-62 | another user's TOTP id is not found, although the row exists |
| Database.EditableMessageLifecycle | database.go:117-147 | a new handle reads back with MessageID 0; after UpdateEditableMessage it reads back with the given message id; after DeleteEditableMessage it reads as the zero record with no error |
| Database.Store.constructor | bot.go:77-85 | a freshly migrated database: empty tables with all counters at 1 |
| Database.Store.SaveTotp | database.go:36-48 | the store becomes what Tables.SaveTotp gives, and the returned id and error are its id and error |
| Database.Store.ListTotps | database.go:51-55 | returns what Tables.ListTotps gives, without changing the store |
| Database.Store.GetTotp | database.go:58-62 | returns what Tables.GetTotp gives |
| Database.Store.DeleteTotp | database.go:65-69 | the store becomes what Tables.DeleteTotp gives |
| Database.Store.GenerateTotp | database.go:72-81 | returns what Tables.GenerateTotp gives |
| Database.Store.GetTempTotp | database.go:84-88 | returns what Tables.GetTempTotp gives |
| Database.Store.SaveTempTotp | database.go:91-107 | the store becomes what Tables.SaveTempTotp gives |
| Database.Store.DeleteTempTotp | database.go:110-114 | the store becomes what Tables.DeleteTempTotp gives |
| Database.Store.SaveEditableMessage | database.go:117-124 | the store becomes what Tables.SaveEditableMessage gives, with its id |
| Database.Store.UpdateEditableMessage | database.go:127-132 | the store becomes what Tables.UpdateEditableMessage gives |
| Database.Store.DeleteEditableMessage | database.go:135-140 | the store becomes what Tables.DeleteEditableMessage gives |
| Database.Store.GetEditableMessage | database.go:143-147 | returns what Tables.GetEditableMessage gives |
| Bot.CollectBulletLines | bot.go:140-143 | the loop builds BulletLines: one bullet line per TOTP, in order |
| Bot.CollectButtons | bot.go:161-163 | the loop builds Buttons: the name-to-payload map, with a later row overwriting an earlier row of the same name |
| Bot.HandleList | bot.go:133-148 | /list changes nothing and makes the calls ListReaction gives |
| Bot.SendKeyboard | bot.go:155-185 | the keyboard part of /del and /otp leaves the store and the calls as KeyboardReaction gives once the list is non-empty |
| Bot.HandleKeyboard | bot.go:149-188 | /del and /otp leave the store and the calls as KeyboardReaction gives |
| Bot.SaveDraftName | bot.go:242-249 | the name step leaves the store and the calls as NameStep gives |
| Bot.SaveSecret | bot.go:250-267 | the secret step leaves the store and the calls as SecretStep gives |
| Bot.HandleDialog | bot.go:238-272 | free text leaves the store and the calls as DialogReaction gives |
| Bot.HandleMessage | bot.go:123-278 | handleMessage leaves the store and the calls as MessageReaction gives |
| Bot.ConsumeHandleStep | bot.go:297-304 | consuming a handle leaves the store and the calls as ConsumeHandle gives |
| Bot.PressDelete | bot.go:291-310 | a /del button leaves the store, the calls and the panic flag as DeleteButtonReaction gives |
| Bot.PressOtp | bot.go:311-331 | an /otp button leaves the store, the calls and the panic flag as OtpButtonReaction gives |
| Bot.PressCancel | bot.go:334-349 | the Cancel button leaves the store and the calls as CancelButtonReaction gives |
| Bot.HandleCallbackQuery | bot.go:281-356 | handleCallbackQuery leaves the store, the calls and the panic flag as CallbackReaction gives |
| Bot.HandleUpdate | bot/bot.go:103-333 | one update leaves the store, the calls and the panic flag as UpdateReaction gives, for either copy of the handlers |
| BotProperties.KeyboardLeavesDialogAlone | bot.go:149-228 | the /del and /otp keyboards never change TOTPs, drafts or their counters and never panic |
| BotProperties.CommandsLeaveDialogAlone | bot.go:129-237 | a text starting with "/" never changes TOTPs, drafts or their counters and never panics; apart from /del and /otp it changes nothing |
| BotProperties.NewOnlyAsksForName | bot.go:131-132 | /new only sends "Input name for your OTP:" and creates no draft |
| BotProperties.NoSuchCommand | bot.go:235-236 | a text starting with "/" is answered with "No such command: " and the text, with the copy's reply keyboard and no change, exactly when it is not one of that copy's commands |
| BotProperties.StartAndHelpShowUsage | bot.go:229-232 | /start and /help send the copy's own help text and reply keyboard and change nothing |
| BotProperties.PrivacyAdvertisedOnlyInRootBot | bot.go:358-380 | bot.go lists /privacy in its help text and on its reply keyboard (bot.go:411-429); bot/bot.go does in neither |
| BotProperties.KeyboardOffersCommands | bot.go:411-429 | every command a copy lists in its help text or shows on its reply keyboard is one that copy answers |
| BotProperties.PrivacyOnlyInRootBot | bot.go:233-236 | /privacy sends the privacy policy in bot.go and "No such command: /privacy" in bot/bot.go |
| BotProperties.BulletLinesShape | bot.go:140-143 | line i of the list is the bullet followed by the name of TOTP i, and there are as many lines as TOTPs |
| BotProperties.BulletLinesWithoutBreaks | bot.go:140-143 | the /list body has one line per TOTP and no line contains a line break |
| BotProperties.HeaderLines | bot.go:144 | the "Your TOTPs:" header and the blank line split off as two lines ahead of the body's own lines |
| BotProperties.ListTextLines | bot.go:144 | the /list reply, split into lines, is the header, an empty line and exactly one bullet line per TOTP, in order |
| BotProperties.ListReplies | bot.go:133-148 | /list changes nothing; it answers "You have no TOTP registered yet." exactly when the user has no TOTP, and otherwise lists the user's rows |
| BotProperties.ButtonsKeys | bot.go:161-164 | the keyboard has one button per distinct name of the user's TOTPs |
| BotProperties.ButtonsLastRowWins | bot.go:161-163 | a button's payload is that of the last row bearing its name |
| BotProperties.ButtonsDecode | bot.go:162 | every button decodes, with the keyboard's command, to the id of a listed TOTP with the button's name and to the keyboard's handle |
| BotProperties.KeyboardCreatesOneHandle | bot.go:149-185 | /del and /otp add exactly one handle, for the user, holding the sent message's id (0 if none came back or the update failed), and send the prompt with one button per name and a Cancel button, all bound to that handle |
| BotProperties.NameStepOpensDraft | bot.go:241-249 | a user with no draft who sends free text gets exactly one new draft named by the text and is asked for the secret |
| BotProperties.SecretStepOutcome | bot.go:250-264 | when neither the save nor the draft deletion fails, the secret step appends exactly the new TOTP, removes exactly the draft and answers with the delete and the confirmation |
| BotProperties.SecretStepActions | bot.go:250-264 | a secret step whose save and draft deletion succeed answers with the typing action, the deletion of the user's message and the confirmation, in that order |
| BotProperties.SecretStepTables | bot.go:250-264 | a secret step whose save and draft deletion succeed appends exactly the new TOTP and removes exactly that draft |
| BotProperties.SecretStepCreatesTotp | bot.go:250-264 | the free text after a named draft appends one TOTP with that name and the normalised secret, removes that draft and no other, deletes the user's message and confirms |
| BotProperties.FailedSaveKeepsDraft | bot.go:265-267 | when the TOTP cannot be saved nothing changes, so the draft waits for the next attempt |
| BotProperties.ConsumeHandleOnlyRemovesHandles | bot.go:297-304 | consuming a handle only removes handles |
| BotProperties.DeleteButtonOnlyRemoves | bot.go:291-310 | a /del button only removes TOTPs and handles |
| BotProperties.OtpButtonOnlyRemovesHandles | bot.go:311-331 | an /otp button only removes handles |
| BotProperties.CancelButtonOnlyRemovesHandles | bot.go:334-349 | the Cancel button only removes handles |
| BotProperties.ButtonsLeaveDraftsAlone | bot.go:281-356 | no button press touches drafts or creates rows, and only a /del payload can remove a TOTP |
| BotProperties.DialogDrafts | bot.go:238-272 | free text either only removes drafts or adds exactly one, for the user and named by the text, and it adds one only when the lookup found no named draft |
| BotProperties.UpdateKeepsDraftsNamed | bot/bot.go:103-333 | every update keeps every draft named |
| BotProperties.UpdateKeepsOneDraftPerUser | bot/bot.go:103-333 | while drafts are named, every update whose draft lookup succeeds keeps at most one draft per user |
| BotProperties.LookupFailureDuplicatesDraft | bot.go:241 | a failed draft lookup makes a user who had one named draft end up with two |
| BotProperties.PayloadPrefixes | bot.go:290-352 | a payload reaches the branch of the command it starts with, and never the help branch |
| BotProperties.Dispatch | bot.go:290-352 | a payload built with /del, /otp or /cancel is handled by that command's handler |
| BotProperties.SingleNumberPanics | bot.go:292-294 | a /del or /otp payload with one number panics at ids[1], after only the typing notice and with the tables unchanged |
| BotProperties.DeleteRejected | bot.go:308-310 | a /del payload of two tokens with a parse error is answered with "Invalid callback query data: " and the payload, and changes nothing |
| BotProperties.OtpRejected | bot.go:329-331 | an /otp payload of two tokens with a parse error is answered with "Invalid callback query data: " and the payload, and changes nothing |
| BotProperties.CancelRejected | bot.go:347-349 | a Cancel payload with a parse error is answered with "Invalid callback query data: " and the payload, and changes nothing |
| BotProperties.MalformedCancelChangesNothing | bot.go:334-349 | a Cancel payload whose token is not a number is rejected and changes nothing |
| BotProperties.MalformedButtonChangesNothing | bot.go:292-310 | a /del or /otp payload whose second token is not a number is rejected and changes nothing |
| BotProperties.ConsumeHandleOutcome | bot.go:297-304 | with no failure, the handle is removed and the message it points at is edited |
| BotProperties.DeleteButtonOutcome | bot.go:295-304 | the /del handler on a decoded payload removes the presser's TOTP with that id and the handle, and edits the keyboard's message to the success notice |
| BotProperties.DeleteButtonConsumes | bot.go:295-297 | on a decoded payload, the /del handler deletes the row matching the presser and the id, then goes on to the editable-message step with the success notice |
| BotProperties.PressDeleteButton | bot.go:291-304 | a /del button removes exactly the presser's TOTP with that id (if any), removes the handle and edits the keyboard's message to the success notice, even when nothing was deleted |
| BotProperties.GeneratedCode | database.go:72-81 | GenerateTOTP on a user's own TOTP succeeds with the code of exactly that TOTP's secret, since ids are unique |
| BotProperties.OtpButtonConsumes | bot.go:315-318 | on a decoded payload for the presser's own TOTP, the /otp handler generates that TOTP's code and goes on to the editable-message step with it |
| BotProperties.OtpButtonOutcome | bot.go:315-325 | the /otp handler on a decoded payload for the presser's TOTP edits the keyboard's message to that TOTP's code and removes the handle |
| BotProperties.PressOtpButton | bot.go:311-325 | an /otp button for the presser's TOTP edits the keyboard's message to that TOTP's current code, removes the handle and changes no TOTP |
| BotProperties.MissingOtpOutcome | bot.go:326-328 | the /otp handler for a TOTP the presser does not have answers "Failed to generate OTP: record not found" and changes nothing |
| BotProperties.PressOtpButtonOfMissingTotp | bot.go:311-328 | an /otp button for a TOTP the presser does not own, or one that is gone, reports "record not found" and keeps the keyboard |
| BotProperties.CancelOutcome | bot.go:337-346 | the Cancel handler on a decoded payload edits the handle's message to "Canceled" and removes the handle; a missing handle means message 0 and no change |
| BotProperties.PressCancelButton | bot.go:334-346 | the Cancel button edits the keyboard's message to "Canceled" and removes the handle; pressed again, it edits message 0 and changes nothing |
| BotProperties.KeyboardHandle | bot.go:160-181 | the handle a keyboard creates is the only row with its id and holds the sent message's id; the tables stay valid |
| BotProperties.ButtonRow | bot.go:161-163 | the button under a name carries the id of one of the user's TOTPs with that name |
| BotProperties.OnlyThatRow | database.go:65-66 | in valid tables, deleting by the presser and a row's id removes that row and no other |
| BotProperties.DeleteKeyboardRoundTrip | bot.go:149-310 | /del followed by a press on one of its buttons deletes exactly the TOTP that button was made for, edits the keyboard's message to the success notice and leaves the handles as before /del |
| BotProperties.OtpKeyboardRoundTrip | bot.go:189-331 | /otp followed by a press on one of its buttons shows the code of the TOTP the button was made for in the keyboard's message, changes no TOTP and leaves the handles as before /otp |
| BotProperties.CancelKeyboardRoundTrip | bot.go:160-349 | /del or /otp followed by Cancel edits the keyboard's message to "Canceled" and leaves the tables as they were before the command |

## Left out

- Run (bot.go:40-103), the polling loop of bot/bot.go, webhook deletion, command registration and main.go's configuration loading: these are setup and I/O. The model starts from an empty migrated database (`Database.Store.constructor`).
- Telegram I/O: each call is an `Action` value. Whether a send or an edit succeeds only affects logging, so it is not modelled. The exception is the message id returned for an inline keyboard, which is an `Env` parameter.
- Logging (`log.Printf`, and the `log.Println` inside sendError): it has no effect on state or replies.
- TOTP code generation (gotp with the current time): a function parameter `otp`.
- The help text is modelled by its "command : description" lines only. Its "Usage:" header, the version line of the `bot.go` copy and the source-code line are not modelled. The privacy text is an opaque value (`PrivacyText`). The reply keyboard is modelled by its rows of buttons only, without its resize, one-time and selective flags.
- The layout of the inline keyboard into rows: the buttons are modelled as the `kvs` map itself, and the Cancel button's payload stands beside it. Go's map order does not matter here.
- Concurrency: the handlers run one event at a time against the tables. Concurrent polling callbacks sharing the database are not modelled.
- Unicode: strings are sequences of characters. Whitespace and case are ASCII only, so `TrimSpace` and `ToUpper` ignore non-ASCII spaces and letters.
- gorm internals:
  - soft deletion is modelled as removal, since every query here skips soft-deleted rows and ids are never reused;
  - ids come from per-table counters;
  - `First`/`Find` return the lowest-id match, which is the first in table order;
  - a database error is a fault named per call in `Env`.
- The `database` package that bot/bot.go imports is not part of this model: its functions are taken to be those of database.go.
- The `temp == nil` branch after GetTempTOTP (help message) is unreachable, because `Find` always fills the struct it is handed, so it is not modelled.
- Updates that are neither a message nor a callback query: bot/bot.go dereferences a nil message for them, and `Update` has no such case.
- Integer widths: ids, chat ids and message ids are unbounded integers. The uint64 width of `uint` ids appears only as the `<= MaxUint64` bounds the decoding lemmas require. Counters that reach 2^64 are not modelled.
- BotProperties.UpdateKeepsOneDraftPerUser: holds only when the draft lookup succeeds. When it fails the invariant breaks, which `BotProperties.LookupFailureDuplicatesDraft` exhibits.
- BotProperties.PressOtpButton, BotProperties.PressDeleteButton, BotProperties.PressCancelButton: stated for the case where none of the press's database calls fails. The failing cases are still covered by `BotProperties.ButtonsLeaveDraftsAlone` (only removals) and by the `Bot` functions the methods are proved against.
