/**
 * The bot's event handlers: handleMessage and handleCallbackQuery in
 * bot.go, and the update callback of pollMessages in bot/bot.go, which
 * does the same thing without the /privacy command and with a different
 * bullet in the /list reply.
 *
 * Each event is answered by a Reaction: the database after the event,
 * the Telegram calls made, in order, and whether Go panicked. What the
 * outside world decides is an Env: which database calls fail (each call
 * happens at most once per event) with what error text, the message id
 * Telegram returns for the inline keyboard, and the TOTP code of a secret
 * at the present time.
 *
 * The functions say what an event does; the methods do it step by step
 * on a Store, as the Go code does, and are proved to agree with them.
 */
module Bot {
  import opened Wrappers
  import opened Text
  import opened Strconv
  import opened Callback
  import opened Database

  const CmdStart: string := "/start"
  const CmdNew: string := "/new"
  const CmdList: string := "/list"
  const CmdPrivacy: string := "/privacy"

  const NoTotpsText: string := "You have no TOTP registered yet."

  const DescNew: string := "Create a new TOTP."
  const DescOtp: string := "Generate a TOTP code."
  const DescList: string := "List all your TOTPs."
  const DescDelete: string := "Delete your TOTP."
  const DescPrivacy: string := "Display privacy policy."
  const DescHelp: string := "Display help message."

  /**
   * The two copies of the handlers: whether /privacy is a command, the
   * bullet /list puts before each name, the "command : description" lines
   * of helpMessage(), and the button rows of keyboardMarkups().
   */
  datatype Variant = Variant(hasPrivacy: bool, bullet: string, usage: seq<(string, string)>, keyboardRows: seq<seq<string>>)
  {
    /** helpMessage() of this copy. */
    function Help(): Body {
      HelpText(usage)
    }

    /** keyboardMarkups() of this copy. */
    function Keyboard(): Markup {
      ReplyKeyboard(keyboardRows)
    }
  }

  /** bot.go: /privacy, "• " (U+2022) as bullet, and /privacy in the help text and on the reply keyboard. */
  const RootBot := Variant(true, "\U{2022} ",
    [(CmdNew, DescNew), (CmdOtp, DescOtp), (CmdList, DescList), (CmdDelete, DescDelete), (CmdPrivacy, DescPrivacy), (CmdHelp, DescHelp)],
    [[CmdOtp], [CmdNew, CmdList, CmdDelete], [CmdPrivacy, CmdHelp]])

  /** bot/bot.go: no /privacy anywhere, and a bullet whose UTF-8 bytes were re-read as Windows-1252, "â€¢ ". */
  const PackageBot := Variant(false, "\U{00E2}\U{20AC}\U{00A2} ",
    [(CmdNew, DescNew), (CmdOtp, DescOtp), (CmdList, DescList), (CmdDelete, DescDelete), (CmdHelp, DescHelp)],
    [[CmdOtp], [CmdNew, CmdList, CmdDelete, CmdHelp]])

  datatype Message = Message(chatId: int, userId: int, messageId: int, text: Option<string>)
  datatype CallbackQuery = CallbackQuery(chatId: int, userId: int, data: Option<string>)
  datatype Update = MessageUpdate(message: Message) | CallbackUpdate(query: CallbackQuery)

  datatype DbCall =
    | ListTotpsCall | SaveTotpCall | GetTotpCall | DeleteTotpCall
    | GetTempTotpCall | SaveTempTotpCall | DeleteTempTotpCall
    | SaveEditableMessageCall | UpdateEditableMessageCall | DeleteEditableMessageCall | GetEditableMessageCall

  /** What is outside the bot's control during one event. */
  datatype Env = Env(faults: map<DbCall, string>, sentMessageId: Option<int>, otp: string -> string)

  function Fault(env: Env, call: DbCall): Option<string> {
    if call in env.faults then Some(env.faults[call]) else None
  }

  /** helpMessage(), by its "command : description" lines, and privacyPolicyMessage(); the rest are built from the event. */
  datatype Body = Plain(text: string) | HelpText(usage: seq<(string, string)>) | PrivacyText

  /** No markup, the reply keyboard of keyboardMarkups() by its rows of command buttons, or an inline keyboard: one button per name and the Cancel button's payload. */
  datatype Markup = NoMarkup | ReplyKeyboard(rows: seq<seq<string>>) | InlineKeyboard(buttons: map<string, string>, cancel: Option<string>)

  datatype Action =
    | Typing(chatId: int)
    | Send(chatId: int, body: Body, markup: Markup)
    | Edit(chatId: int, messageId: int, text: string)
    | DeleteMessage(chatId: int, messageId: int)

  datatype Reaction = Reaction(tables: Tables, actions: seq<Action>, panicked: bool)

  // ---------------------------------------------------------------------
  // What an event does
  // ---------------------------------------------------------------------

  /** The names of the /list reply, one bullet line per TOTP, in order. */
  function BulletLines(rows: seq<Totp>, bullet: string): seq<string>
    decreases |rows|
  {
    if rows == [] then [] else BulletLines(rows[..|rows| - 1], bullet) + [bullet + rows[|rows| - 1].name]
  }

  function ListText(rows: seq<Totp>, bullet: string): string {
    "Your TOTPs:\n\n" + Join(BulletLines(rows, bullet), "\n")
  }

  /** The buttons map: each name maps to its row's payload; a later row with the same name overwrites an earlier one. */
  function Buttons(rows: seq<Totp>, command: string, handle: nat): map<string, string>
    decreases |rows|
  {
    if rows == [] then
      map[]
    else
      var last := rows[|rows| - 1];
      Buttons(rows[..|rows| - 1], command, handle)[last.name := EntryPayload(command, last.id, handle)]
  }

  /** /list. */
  function ListReaction(v: Variant, t: Tables, env: Env, chat: int, user: int): Reaction {
    var listed := t.ListTotps(user, Fault(env, ListTotpsCall));
    var reply :=
      if listed.err.Some? then Send(chat, Plain("Failed to list your TOTPs: " + ErrorText(listed.err.value)), NoMarkup)
      else if listed.value == [] then Send(chat, Plain(NoTotpsText), v.Keyboard())
      else Send(chat, Plain(ListText(listed.value, v.bullet)), v.Keyboard());
    Reaction(t, [Typing(chat), reply], false)
  }

  /**
   * /del and /otp: a new keyboard handle, a message with one button per
   * TOTP and a Cancel button, and the sent message's id recorded in the
   * handle. When the handle cannot be created the keyboard is empty and
   * the id is recorded under handle 0.
   */
  function KeyboardReaction(v: Variant, t: Tables, env: Env, chat: int, user: int, command: string, prompt: string): Reaction {
    var listed := t.ListTotps(user, Fault(env, ListTotpsCall));
    if listed.err.Some? then
      Reaction(t, [Typing(chat), Send(chat, Plain("Failed to list your TOTPs: " + ErrorText(listed.err.value)), NoMarkup)], false)
    else if listed.value == [] then
      Reaction(t, [Typing(chat), Send(chat, Plain(NoTotpsText), v.Keyboard())], false)
    else
      var saved := t.SaveEditableMessage(user, Fault(env, SaveEditableMessageCall));
      var markup :=
        if saved.err.None? then InlineKeyboard(Buttons(listed.value, command, saved.id), Some(CancelPayload(saved.id)))
        else InlineKeyboard(map[], None);
      var actions := [Typing(chat), Send(chat, Plain(prompt), markup)];
      match env.sentMessageId
      case None => Reaction(saved.tables, actions, false)
      case Some(sent) =>
        Reaction(saved.tables.UpdateEditableMessage(saved.id, sent, Fault(env, UpdateEditableMessageCall)).tables, actions, false)
  }

  /** A text starting with "/": only the exact command texts are commands. */
  function CommandReaction(v: Variant, t: Tables, env: Env, chat: int, user: int, text: string): Reaction {
    if text == CmdNew then
      Reaction(t, [Send(chat, Plain("Input name for your OTP:"), NoMarkup)], false)
    else if text == CmdList then
      ListReaction(v, t, env, chat, user)
    else if text == CmdDelete then
      KeyboardReaction(v, t, env, chat, user, CmdDelete, "Select TOTP to delete:")
    else if text == CmdOtp then
      KeyboardReaction(v, t, env, chat, user, CmdOtp, "Select TOTP to generate OTP:")
    else if text == CmdStart || text == CmdHelp then
      Reaction(t, [Send(chat, v.Help(), v.Keyboard())], false)
    else if v.hasPrivacy && text == CmdPrivacy then
      Reaction(t, [Send(chat, PrivacyText, v.Keyboard())], false)
    else
      Reaction(t, [Send(chat, Plain("No such command: " + text), v.Keyboard())], false)
  }

  /** The name step of the dialog: the text becomes the name of a new draft. */
  function NameStep(t: Tables, env: Env, chat: int, user: int, temp: TempTotp, text: string): Reaction {
    var saved := t.SaveTempTotp(user, temp.id, Some(text), Fault(env, SaveTempTotpCall));
    var reply :=
      if saved.err.None? then Send(chat, Plain("Input secret for your TOTP `" + text + "`:"), NoMarkup)
      else Send(chat, Plain("Failed to save temporary TOTP: " + ErrorText(saved.err.value)), NoMarkup);
    Reaction(saved.tables, [Typing(chat), reply], false)
  }

  /** The secret step of the dialog: save the TOTP, then delete the draft and the user's message holding the secret. */
  function SecretStep(v: Variant, t: Tables, env: Env, m: Message, temp: TempTotp, name: string, text: string): Reaction {
    var chat, user := m.chatId, m.userId;
    var saved := t.SaveTotp(user, name, text, Fault(env, SaveTotpCall));
    if saved.err.Some? then
      Reaction(t, [Typing(chat), Send(chat, Plain("Failed to save TOTP `" + name + "`"), v.Keyboard())], false)
    else
      var deleted := saved.tables.DeleteTempTotp(user, temp.id, Fault(env, DeleteTempTotpCall));
      var warning :=
        if deleted.err.Some? then [Send(chat, Plain("Failed to delete temporary TOTP with id: " + Decimal(temp.id)), NoMarkup)]
        else [];
      var created := Send(chat, Plain("Your TOTP `" + name + "` was successfully created."), v.Keyboard());
      Reaction(deleted.tables, [Typing(chat)] + warning + [DeleteMessage(chat, m.messageId), created], false)
  }

  /**
   * Any other text is a step of the creation dialog. The user's draft (the
   * zero record when there is none, or when the lookup failed) decides:
   * without a name, the text names a new draft; with one, the text is the
   * secret.
   */
  function DialogReaction(v: Variant, t: Tables, env: Env, m: Message, text: string): Reaction {
    var temp := t.GetTempTotp(m.userId, Fault(env, GetTempTotpCall)).value;
    match temp.name
    case None => NameStep(t, env, m.chatId, m.userId, temp, text)
    case Some(name) => SecretStep(v, t, env, m, temp, name, text)
  }

  /** handleMessage. */
  function MessageReaction(v: Variant, t: Tables, env: Env, m: Message): Reaction {
    match m.text
    case None => Reaction(t, [Send(m.chatId, Plain("Invalid message type"), v.Keyboard())], false)
    case Some(text) =>
      if HasPrefix(text, "/") then CommandReaction(v, t, env, m.chatId, m.userId, text)
      else DialogReaction(v, t, env, m, text)
  }

  /** The end of a keyboard's life: edit the message the handle points at and delete the handle, unless the lookup fails. */
  function ConsumeHandle(t: Tables, env: Env, chat: int, handle: nat, text: string, before: seq<Action>): Reaction {
    var got := t.GetEditableMessage(handle, Fault(env, GetEditableMessageCall));
    if got.err.Some? then
      Reaction(t, before, false)
    else
      Reaction(t.DeleteEditableMessage(handle, Fault(env, DeleteEditableMessageCall)).tables,
               before + [Edit(chat, got.value.messageId, text)], false)
  }

  /** A /del button: ids[1] is read before the error is checked, so a payload with one number panics. */
  function DeleteButtonReaction(t: Tables, env: Env, q: CallbackQuery, data: string): Reaction {
    var typing := [Typing(q.chatId)];
    var d := Decode(CmdDelete, data);
    if |d.ids| < 2 then
      Reaction(t, typing, true)
    else if d.err.Some? then
      Reaction(t, typing + [Send(q.chatId, Plain("Invalid callback query data: " + data), NoMarkup)], false)
    else
      var deleted := t.DeleteTotp(q.userId, d.ids[0], Fault(env, DeleteTotpCall));
      if deleted.err.Some? then
        Reaction(t, typing + [Send(q.chatId, Plain("Failed to delete your TOTP: " + ErrorText(deleted.err.value)), NoMarkup)], false)
      else
        ConsumeHandle(deleted.tables, env, q.chatId, d.ids[1], "Your TOTP was successfully deleted.", typing)
  }

  /** An /otp button: the same panic, then the code replaces the keyboard. */
  function OtpButtonReaction(t: Tables, env: Env, q: CallbackQuery, data: string): Reaction {
    var typing := [Typing(q.chatId)];
    var d := Decode(CmdOtp, data);
    if |d.ids| < 2 then
      Reaction(t, typing, true)
    else if d.err.Some? then
      Reaction(t, typing + [Send(q.chatId, Plain("Invalid callback query data: " + data), NoMarkup)], false)
    else
      var generated := t.GenerateTotp(q.userId, d.ids[0], Fault(env, GetTotpCall), env.otp);
      if generated.err.Some? then
        Reaction(t, typing + [Send(q.chatId, Plain("Failed to generate OTP: " + ErrorText(generated.err.value)), NoMarkup)], false)
      else
        ConsumeHandle(t, env, q.chatId, d.ids[1], generated.value, typing)
  }

  /** The Cancel button: the keyboard is replaced by "Canceled". */
  function CancelButtonReaction(t: Tables, env: Env, q: CallbackQuery, data: string): Reaction {
    var typing := [Typing(q.chatId)];
    var d := Decode(CmdCancel, data);
    if d.err.Some? then
      Reaction(t, typing + [Send(q.chatId, Plain("Invalid callback query data: " + data), NoMarkup)], false)
    else
      ConsumeHandle(t, env, q.chatId, d.ids[0], "Canceled", typing)
  }

  /** handleCallbackQuery: dispatch on the payload's prefix, in this order. */
  function CallbackReaction(v: Variant, t: Tables, env: Env, q: CallbackQuery): Reaction {
    match q.data
    case None => Reaction(t, [Send(q.chatId, Plain("Callback query data is empty."), NoMarkup)], false)
    case Some(data) =>
      if HasPrefix(data, CmdDelete) then DeleteButtonReaction(t, env, q, data)
      else if HasPrefix(data, CmdOtp) then OtpButtonReaction(t, env, q, data)
      else if HasPrefix(data, CmdHelp) then Reaction(t, [Typing(q.chatId), Send(q.chatId, v.Help(), v.Keyboard())], false)
      else if HasPrefix(data, CmdCancel) then CancelButtonReaction(t, env, q, data)
      else
        Reaction(t, [Typing(q.chatId), Send(q.chatId, Plain("Invalid callback query data for this context: " + data), NoMarkup)], false)
  }

  function UpdateReaction(v: Variant, t: Tables, env: Env, u: Update): Reaction {
    match u
    case MessageUpdate(m) => MessageReaction(v, t, env, m)
    case CallbackUpdate(q) => CallbackReaction(v, t, env, q)
  }

  // ---------------------------------------------------------------------
  // The handlers, step by step on the database
  // ---------------------------------------------------------------------

  /** The loop that builds the bullet lines of /list. */
  method CollectBulletLines(totps: seq<Totp>, bullet: string) returns (names: seq<string>)
    ensures names == BulletLines(totps, bullet)
  {
    names := [];
    for i := 0 to |totps|
      invariant names == BulletLines(totps[..i], bullet)
    {
      assert totps[..i + 1][..i] == totps[..i];
      names := names + [bullet + totps[i].name];
    }
    assert totps[..|totps|] == totps;
  }

  /** The loop that fills the keyboard's map of name to payload. */
  method CollectButtons(totps: seq<Totp>, command: string, handle: nat) returns (kvs: map<string, string>)
    ensures kvs == Buttons(totps, command, handle)
  {
    kvs := map[];
    for i := 0 to |totps|
      invariant kvs == Buttons(totps[..i], command, handle)
    {
      assert totps[..i + 1][..i] == totps[..i];
      kvs := kvs[totps[i].name := EntryPayload(command, totps[i].id, handle)];
    }
    assert totps[..|totps|] == totps;
  }

  /** /list: reads the database and changes nothing. */
  method HandleList(v: Variant, db: Store, env: Env, chat: int, user: int) returns (actions: seq<Action>)
    ensures Reaction(db.State(), actions, false) == ListReaction(v, db.State(), env, chat, user)
  {
    actions := [Typing(chat)];
    var totps, err := db.ListTotps(user, Fault(env, ListTotpsCall));
    if err.Some? {
      actions := actions + [Send(chat, Plain("Failed to list your TOTPs: " + ErrorText(err.value)), NoMarkup)];
    } else if |totps| == 0 {
      actions := actions + [Send(chat, Plain(NoTotpsText), v.Keyboard())];
    } else {
      var names := CollectBulletLines(totps, v.bullet);
      actions := actions + [Send(chat, Plain("Your TOTPs:\n\n" + Join(names, "\n")), v.Keyboard())];
    }
  }

  /** The keyboard once the user's TOTPs are listed and there is at least one. */
  method SendKeyboard(db: Store, env: Env, chat: int, user: int, command: string, prompt: string, totps: seq<Totp>)
    returns (actions: seq<Action>)
    requires db.Valid()
    modifies db
    ensures db.Valid()
    ensures
      var saved := old(db.State()).SaveEditableMessage(user, Fault(env, SaveEditableMessageCall));
      var markup :=
        if saved.err.None? then InlineKeyboard(Buttons(totps, command, saved.id), Some(CancelPayload(saved.id)))
        else InlineKeyboard(map[], None);
      && actions == [Send(chat, Plain(prompt), markup)]
      && db.State() == match env.sentMessageId
        case None => saved.tables
        case Some(sent) => saved.tables.UpdateEditableMessage(saved.id, sent, Fault(env, UpdateEditableMessageCall)).tables
  {
    var kvs: map<string, string> := map[];
    var cancel: Option<string> := None;
    var handle, saveErr := db.SaveEditableMessage(user, Fault(env, SaveEditableMessageCall));
    if saveErr.None? {
      kvs := CollectButtons(totps, command, handle);
      cancel := Some(CancelPayload(handle));
    }
    actions := [Send(chat, Plain(prompt), InlineKeyboard(kvs, cancel))];
    if env.sentMessageId.Some? {
      var updateErr := db.UpdateEditableMessage(handle, env.sentMessageId.value, Fault(env, UpdateEditableMessageCall));
    }
  }

  /** /del and /otp. */
  method HandleKeyboard(v: Variant, db: Store, env: Env, chat: int, user: int, command: string, prompt: string) returns (actions: seq<Action>)
    requires db.Valid()
    modifies db
    ensures db.Valid()
    ensures Reaction(db.State(), actions, false) == KeyboardReaction(v, old(db.State()), env, chat, user, command, prompt)
  {
    actions := [Typing(chat)];
    var totps, err := db.ListTotps(user, Fault(env, ListTotpsCall));
    if err.Some? {
      actions := actions + [Send(chat, Plain("Failed to list your TOTPs: " + ErrorText(err.value)), NoMarkup)];
    } else if |totps| == 0 {
      actions := actions + [Send(chat, Plain(NoTotpsText), v.Keyboard())];
    } else {
      var sent := SendKeyboard(db, env, chat, user, command, prompt, totps);
      assert [Typing(chat)] + sent == [Typing(chat), sent[0]];
      actions := actions + sent;
    }
  }

  /** The name step of the dialog. */
  method SaveDraftName(db: Store, env: Env, chat: int, user: int, temp: TempTotp, text: string) returns (actions: seq<Action>)
    requires db.Valid()
    modifies db
    ensures db.Valid()
    ensures Reaction(db.State(), actions, false) == NameStep(old(db.State()), env, chat, user, temp, text)
  {
    actions := [Typing(chat)];
    var name := text;
    var err := db.SaveTempTotp(user, temp.id, Some(name), Fault(env, SaveTempTotpCall));
    if err.None? {
      actions := actions + [Send(chat, Plain("Input secret for your TOTP `" + name + "`:"), NoMarkup)];
    } else {
      actions := actions + [Send(chat, Plain("Failed to save temporary TOTP: " + ErrorText(err.value)), NoMarkup)];
    }
  }

  /** The secret step of the dialog. */
  method SaveSecret(v: Variant, db: Store, env: Env, m: Message, temp: TempTotp, name: string, text: string) returns (actions: seq<Action>)
    requires db.Valid()
    modifies db
    ensures db.Valid()
    ensures Reaction(db.State(), actions, false) == SecretStep(v, old(db.State()), env, m, temp, name, text)
  {
    ghost var before := db.State();
    var chat, user := m.chatId, m.userId;
    actions := [Typing(chat)];
    var secret := text;
    var id, err := db.SaveTotp(user, name, secret, Fault(env, SaveTotpCall));
    if err.Some? {
      actions := actions + [Send(chat, Plain("Failed to save TOTP `" + name + "`"), v.Keyboard())];
      return;
    }
    ghost var saved := db.State();
    assert saved == before.SaveTotp(user, name, text, Fault(env, SaveTotpCall)).tables;
    var deleteErr := db.DeleteTempTotp(user, temp.id, Fault(env, DeleteTempTotpCall));
    assert Changed(db.State(), deleteErr) == saved.DeleteTempTotp(user, temp.id, Fault(env, DeleteTempTotpCall));
    var warning := [];
    if deleteErr.Some? {
      warning := [Send(chat, Plain("Failed to delete temporary TOTP with id: " + Decimal(temp.id)), NoMarkup)];
    }
    actions := actions + warning + [DeleteMessage(chat, m.messageId)];
    var created := Send(chat, Plain("Your TOTP `" + name + "` was successfully created."), v.Keyboard());
    assert actions + [created] == [Typing(chat)] + warning + [DeleteMessage(chat, m.messageId), created];
    actions := actions + [created];
  }

  /** A step of the creation dialog: the draft found decides the step; the lookup's error is ignored. */
  method HandleDialog(v: Variant, db: Store, env: Env, m: Message, text: string) returns (actions: seq<Action>)
    requires db.Valid()
    modifies db
    ensures db.Valid()
    ensures Reaction(db.State(), actions, false) == DialogReaction(v, old(db.State()), env, m, text)
  {
    var temp, getErr := db.GetTempTotp(m.userId, Fault(env, GetTempTotpCall));
    if temp.name.None? {
      actions := SaveDraftName(db, env, m.chatId, m.userId, temp, text);
    } else {
      actions := SaveSecret(v, db, env, m, temp, temp.name.value, text);
    }
  }

  /** handleMessage. */
  method HandleMessage(v: Variant, db: Store, env: Env, m: Message) returns (actions: seq<Action>)
    requires db.Valid()
    modifies db
    ensures db.Valid()
    ensures Reaction(db.State(), actions, false) == MessageReaction(v, old(db.State()), env, m)
  {
    var chat := m.chatId;
    if m.text.None? {
      return [Send(chat, Plain("Invalid message type"), v.Keyboard())];
    }
    var text := m.text.value;
    if !HasPrefix(text, "/") {
      actions := HandleDialog(v, db, env, m, text);
      return;
    }
    if text == CmdNew {
      actions := [Send(chat, Plain("Input name for your OTP:"), NoMarkup)];
    } else if text == CmdList {
      actions := HandleList(v, db, env, chat, m.userId);
    } else if text == CmdDelete {
      actions := HandleKeyboard(v, db, env, chat, m.userId, CmdDelete, "Select TOTP to delete:");
    } else if text == CmdOtp {
      actions := HandleKeyboard(v, db, env, chat, m.userId, CmdOtp, "Select TOTP to generate OTP:");
    } else if text == CmdStart || text == CmdHelp {
      actions := [Send(chat, v.Help(), v.Keyboard())];
    } else if v.hasPrivacy && text == CmdPrivacy {
      actions := [Send(chat, PrivacyText, v.Keyboard())];
    } else {
      actions := [Send(chat, Plain("No such command: " + text), v.Keyboard())];
    }
  }

  /** Edit the keyboard's message and delete its handle. */
  method ConsumeHandleStep(db: Store, env: Env, chat: int, handle: nat, text: string, before: seq<Action>) returns (actions: seq<Action>)
    requires db.Valid()
    modifies db
    ensures db.Valid()
    ensures Reaction(db.State(), actions, false) == ConsumeHandle(old(db.State()), env, chat, handle, text, before)
  {
    actions := before;
    var editable, err := db.GetEditableMessage(handle, Fault(env, GetEditableMessageCall));
    if err.None? {
      actions := actions + [Edit(chat, editable.messageId, text)];
      var deleteErr := db.DeleteEditableMessage(handle, Fault(env, DeleteEditableMessageCall));
    }
  }

  /** A /del button. */
  method PressDelete(db: Store, env: Env, q: CallbackQuery, data: string) returns (actions: seq<Action>, panicked: bool)
    requires db.Valid()
    modifies db
    ensures db.Valid()
    ensures Reaction(db.State(), actions, panicked) == DeleteButtonReaction(old(db.State()), env, q, data)
  {
    var chat := q.chatId;
    actions, panicked := [Typing(chat)], false;
    var ids, err := ParseCallbackQueryData(CmdDelete, data);
    if |ids| < 2 {
      return actions, true;
    }
    if err.Some? {
      actions := actions + [Send(chat, Plain("Invalid callback query data: " + data), NoMarkup)];
      return;
    }
    var deleteErr := db.DeleteTotp(q.userId, ids[0], Fault(env, DeleteTotpCall));
    if deleteErr.Some? {
      actions := actions + [Send(chat, Plain("Failed to delete your TOTP: " + ErrorText(deleteErr.value)), NoMarkup)];
      return;
    }
    actions := ConsumeHandleStep(db, env, chat, ids[1], "Your TOTP was successfully deleted.", actions);
  }

  /** An /otp button. */
  method PressOtp(db: Store, env: Env, q: CallbackQuery, data: string) returns (actions: seq<Action>, panicked: bool)
    requires db.Valid()
    modifies db
    ensures db.Valid()
    ensures Reaction(db.State(), actions, panicked) == OtpButtonReaction(old(db.State()), env, q, data)
  {
    var chat := q.chatId;
    actions, panicked := [Typing(chat)], false;
    var ids, err := ParseCallbackQueryData(CmdOtp, data);
    if |ids| < 2 {
      return actions, true;
    }
    if err.Some? {
      actions := actions + [Send(chat, Plain("Invalid callback query data: " + data), NoMarkup)];
      return;
    }
    var generated, generateErr := db.GenerateTotp(q.userId, ids[0], Fault(env, GetTotpCall), env.otp);
    if generateErr.Some? {
      actions := actions + [Send(chat, Plain("Failed to generate OTP: " + ErrorText(generateErr.value)), NoMarkup)];
      return;
    }
    actions := ConsumeHandleStep(db, env, chat, ids[1], generated, actions);
  }

  /** The Cancel button. */
  method PressCancel(db: Store, env: Env, q: CallbackQuery, data: string) returns (actions: seq<Action>)
    requires db.Valid()
    modifies db
    ensures db.Valid()
    ensures Reaction(db.State(), actions, false) == CancelButtonReaction(old(db.State()), env, q, data)
  {
    var chat := q.chatId;
    actions := [Typing(chat)];
    var ids, err := ParseCallbackQueryData(CmdCancel, data);
    if err.Some? {
      actions := actions + [Send(chat, Plain("Invalid callback query data: " + data), NoMarkup)];
      return;
    }
    actions := ConsumeHandleStep(db, env, chat, ids[0], "Canceled", actions);
  }

  /** handleCallbackQuery. */
  method HandleCallbackQuery(v: Variant, db: Store, env: Env, q: CallbackQuery) returns (actions: seq<Action>, panicked: bool)
    requires db.Valid()
    modifies db
    ensures db.Valid()
    ensures Reaction(db.State(), actions, panicked) == CallbackReaction(v, old(db.State()), env, q)
  {
    var chat := q.chatId;
    panicked := false;
    if q.data.None? {
      return [Send(chat, Plain("Callback query data is empty."), NoMarkup)], false;
    }
    var data := q.data.value;
    if HasPrefix(data, CmdDelete) {
      actions, panicked := PressDelete(db, env, q, data);
    } else if HasPrefix(data, CmdOtp) {
      actions, panicked := PressOtp(db, env, q, data);
    } else if HasPrefix(data, CmdHelp) {
      actions := [Typing(chat), Send(chat, v.Help(), v.Keyboard())];
    } else if HasPrefix(data, CmdCancel) {
      actions := PressCancel(db, env, q, data);
    } else {
      actions := [Typing(chat), Send(chat, Plain("Invalid callback query data for this context: " + data), NoMarkup)];
    }
  }

  /** One update of the polling loop. */
  method HandleUpdate(v: Variant, db: Store, env: Env, u: Update) returns (actions: seq<Action>, panicked: bool)
    requires db.Valid()
    modifies db
    ensures db.Valid()
    ensures Reaction(db.State(), actions, panicked) == UpdateReaction(v, old(db.State()), env, u)
  {
    match u
    case MessageUpdate(m) =>
      actions := HandleMessage(v, db, env, m);
      panicked := false;
    case CallbackUpdate(q) =>
      actions, panicked := HandleCallbackQuery(v, db, env, q);
  }
}
