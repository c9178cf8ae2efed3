/**
 * What the handlers guarantee, stated over the Reaction functions of Bot:
 * what commands may change, the shape of the /list reply, that every
 * inline button carries a payload that decodes back to its TOTP and its
 * keyboard handle, the steps of the creation dialog, the invariants the
 * draft table keeps, and what pressing a button does.
 */
module BotProperties {
  import opened Wrappers
  import opened Text
  import opened Strconv
  import opened Callback
  import opened Database
  import opened Bot

  /** No database call fails and Telegram returns no message id. */
  function Calm(otp: string -> string): Env {
    Env(map[], None, otp)
  }

  // ---------------------------------------------------------------------
  // Commands
  // ---------------------------------------------------------------------

  /**
   * A text starting with "/" never touches TOTPs or drafts: only /del and
   * /otp write to the database, and only to the keyboard handles. In
   * particular /new does not create a draft.
   */
  lemma CommandsLeaveDialogAlone(v: Variant, t: Tables, env: Env, m: Message)
    requires m.text.Some? && HasPrefix(m.text.value, "/")
    ensures var r := MessageReaction(v, t, env, m);
      && r.tables.totps == t.totps && r.tables.temps == t.temps
      && r.tables.nextTotpId == t.nextTotpId && r.tables.nextTempId == t.nextTempId
      && !r.panicked
    ensures m.text.value != CmdDelete && m.text.value != CmdOtp ==> MessageReaction(v, t, env, m).tables == t
  {
    var text := m.text.value;
    assert MessageReaction(v, t, env, m) == CommandReaction(v, t, env, m.chatId, m.userId, text);
    KeyboardLeavesDialogAlone(v, t, env, m.chatId, m.userId, CmdDelete, "Select TOTP to delete:");
    KeyboardLeavesDialogAlone(v, t, env, m.chatId, m.userId, CmdOtp, "Select TOTP to generate OTP:");
  }

  /** The keyboard of /del and /otp writes only keyboard handles. */
  lemma KeyboardLeavesDialogAlone(v: Variant, t: Tables, env: Env, chat: int, user: int, command: string, prompt: string)
    ensures var r := KeyboardReaction(v, t, env, chat, user, command, prompt);
      && r.tables.totps == t.totps && r.tables.temps == t.temps
      && r.tables.nextTotpId == t.nextTotpId && r.tables.nextTempId == t.nextTempId
      && !r.panicked
  {
  }

  /** /new only asks for a name. */
  lemma NewOnlyAsksForName(v: Variant, t: Tables, env: Env, m: Message)
    requires m.text == Some(CmdNew)
    ensures MessageReaction(v, t, env, m) == Reaction(t, [Send(m.chatId, Plain("Input name for your OTP:"), NoMarkup)], false)
  {
  }

  /** /privacy answers with the privacy policy in bot.go and is an unknown command in bot/bot.go. */
  lemma PrivacyOnlyInRootBot(t: Tables, env: Env, m: Message)
    requires m.text == Some(CmdPrivacy)
    ensures MessageReaction(RootBot, t, env, m).actions == [Send(m.chatId, PrivacyText, RootBot.Keyboard())]
    ensures MessageReaction(PackageBot, t, env, m).actions == [Send(m.chatId, Plain("No such command: /privacy"), PackageBot.Keyboard())]
  {
    assert HasPrefix(CmdPrivacy, "/");
    assert CmdPrivacy != CmdNew && CmdPrivacy != CmdList && CmdPrivacy != CmdStart by {
      assert CmdPrivacy[1] == 'p';
    }
    assert CmdPrivacy != CmdDelete && CmdPrivacy != CmdOtp && CmdPrivacy != CmdHelp by {
      assert CmdPrivacy[1] == 'p';
    }
    assert "No such command: " + CmdPrivacy == "No such command: /privacy";
  }

  /** The texts handleMessage answers as commands in a copy of the handlers. */
  predicate IsCommand(v: Variant, text: string) {
    || text == CmdNew || text == CmdList || text == CmdDelete || text == CmdOtp
    || text == CmdStart || text == CmdHelp
    || (v.hasPrivacy && text == CmdPrivacy)
  }

  /** A text starting with "/" is answered with "No such command: " and the text, changing nothing, exactly when it is not a command of that copy. */
  lemma NoSuchCommand(v: Variant, t: Tables, env: Env, m: Message, text: string)
    requires m.text == Some(text) && HasPrefix(text, "/")
    ensures MessageReaction(v, t, env, m) == Reaction(t, [Send(m.chatId, Plain("No such command: " + text), v.Keyboard())], false)
        <==> !IsCommand(v, text)
  {
    assert MessageReaction(v, t, env, m) == CommandReaction(v, t, env, m.chatId, m.userId, text);
    if text == CmdList {
      assert ListReaction(v, t, env, m.chatId, m.userId).actions[0] == Typing(m.chatId);
    } else if text == CmdDelete || text == CmdOtp {
      assert KeyboardReaction(v, t, env, m.chatId, m.userId, text, if text == CmdDelete then "Select TOTP to delete:" else "Select TOTP to generate OTP:").actions[0] == Typing(m.chatId);
    }
  }

  /** /start and /help answer with this copy's usage lines and reply keyboard, and change nothing. */
  lemma StartAndHelpShowUsage(v: Variant, t: Tables, env: Env, m: Message)
    requires m.text == Some(CmdStart) || m.text == Some(CmdHelp)
    ensures MessageReaction(v, t, env, m) == Reaction(t, [Send(m.chatId, HelpText(v.usage), ReplyKeyboard(v.keyboardRows))], false)
  {
    var text := m.text.value;
    assert HasPrefix(text, "/");
    assert text != CmdNew && text != CmdList && text != CmdDelete && text != CmdOtp by {
      assert text[1] == 's' || text[1] == 'h';
    }
  }

  /** Only bot.go advertises /privacy, in its help text and on its reply keyboard. */
  lemma PrivacyAdvertisedOnlyInRootBot()
    ensures exists i :: 0 <= i < |RootBot.usage| && RootBot.usage[i].0 == CmdPrivacy
    ensures forall i :: 0 <= i < |PackageBot.usage| ==> PackageBot.usage[i].0 != CmdPrivacy
    ensures exists row :: row in RootBot.keyboardRows && CmdPrivacy in row
    ensures forall row :: row in PackageBot.keyboardRows ==> CmdPrivacy !in row
  {
    assert RootBot.usage[4].0 == CmdPrivacy;
    assert RootBot.keyboardRows[2] in RootBot.keyboardRows;
  }

  /** Every command a copy lists in its help text or puts on its reply keyboard is one that copy answers. */
  lemma KeyboardOffersCommands(v: Variant)
    requires v == RootBot || v == PackageBot
    ensures forall i :: 0 <= i < |v.usage| ==> IsCommand(v, v.usage[i].0)
    ensures forall row, c :: row in v.keyboardRows && c in row ==> IsCommand(v, c)
  {
  }

  // ---------------------------------------------------------------------
  // /list
  // ---------------------------------------------------------------------

  /** One bullet line per row, in the rows' order. */
  lemma {:induction false} BulletLinesShape(rows: seq<Totp>, bullet: string)
    ensures |BulletLines(rows, bullet)| == |rows|
    ensures forall i :: 0 <= i < |rows| ==> BulletLines(rows, bullet)[i] == bullet + rows[i].name
    decreases |rows|
  {
    if rows != [] {
      var init := rows[..|rows| - 1];
      BulletLinesShape(init, bullet);
      assert forall i :: 0 <= i < |init| ==> init[i] == rows[i];
    }
  }

  /**
   * The /list reply read line by line: the header, an empty line, then
   * exactly one bullet line per TOTP, in order (names without line breaks).
   */
  lemma ListTextLines(rows: seq<Totp>, bullet: string)
    requires rows != []
    requires '\n' !in bullet && forall r :: r in rows ==> '\n' !in r.name
    ensures Split(ListText(rows, bullet), '\n') == ["Your TOTPs:", ""] + BulletLines(rows, bullet)
  {
    var lines := BulletLines(rows, bullet);
    BulletLinesWithoutBreaks(rows, bullet);
    SplitJoin(lines, '\n');
    HeaderLines(Join(lines, "\n"));
  }

  /** No bullet line holds a line break when neither the bullet nor any name does. */
  lemma BulletLinesWithoutBreaks(rows: seq<Totp>, bullet: string)
    requires rows != []
    requires '\n' !in bullet && forall r :: r in rows ==> '\n' !in r.name
    ensures |BulletLines(rows, bullet)| >= 1
    ensures forall i :: 0 <= i < |BulletLines(rows, bullet)| ==> '\n' !in BulletLines(rows, bullet)[i]
  {
    var lines := BulletLines(rows, bullet);
    BulletLinesShape(rows, bullet);
    forall i | 0 <= i < |lines| ensures '\n' !in lines[i] {
      assert lines[i] == bullet + rows[i].name && rows[i] in rows;
    }
  }

  /** The /list header splits into its line and an empty line, ahead of the body's lines. */
  lemma HeaderLines(body: string)
    ensures Split("Your TOTPs:\n\n" + body, '\n') == ["Your TOTPs:", ""] + Split(body, '\n')
  {
    var header: string := "Your TOTPs:";
    ListHeader();
    assert "Your TOTPs:\n\n" + body == header + ['\n'] + ([] + ['\n'] + body);
    SplitFirst(header, [] + ['\n'] + body, '\n');
    SplitFirst([], body, '\n');
  }

  /** The /list header is one line followed by an empty one. */
  lemma ListHeader()
    ensures '\n' !in "Your TOTPs:"
    ensures "Your TOTPs:\n\n" == "Your TOTPs:" + ['\n'] + ['\n']
  {
  }

  /** /list answers with the empty-list text exactly when the user has no TOTP, and otherwise lists the user's rows. */
  lemma ListReplies(v: Variant, t: Tables, env: Env, chat: int, user: int)
    requires ListTotpsCall !in env.faults
    ensures var r := ListReaction(v, t, env, chat, user);
      var mine := Filter(t.totps, (x: Totp) => x.userId == user);
      && r.tables == t
      && (r.actions == [Typing(chat), Send(chat, Plain(NoTotpsText), v.Keyboard())] <==> forall x :: x in t.totps ==> x.userId != user)
      && (mine != [] ==> r.actions == [Typing(chat), Send(chat, Plain(ListText(mine, v.bullet)), v.Keyboard())])
  {
    var mine := Filter(t.totps, (x: Totp) => x.userId == user);
    if mine != [] {
      assert mine[0] in mine;
      BulletLinesShape(mine, v.bullet);
      var text := ListText(mine, v.bullet);
      assert text[0] == 'Y';
      assert text != NoTotpsText by {
        assert |text| >= 13;
        assert text[11] == '\n';
        assert NoTotpsText[11] != '\n';
      }
    }
  }

  // ---------------------------------------------------------------------
  // The inline keyboard of /del and /otp
  // ---------------------------------------------------------------------

  /** The keyboard has one button per distinct TOTP name. */
  lemma {:induction false} ButtonsKeys(rows: seq<Totp>, command: string, handle: nat)
    ensures Buttons(rows, command, handle).Keys == set r | r in rows :: r.name
    decreases |rows|
  {
    if rows != [] {
      var init := rows[..|rows| - 1];
      var last := rows[|rows| - 1];
      ButtonsKeys(init, command, handle);
      assert rows == init + [last];
      assert (set r | r in rows :: r.name) == (set r | r in init :: r.name) + {last.name};
    }
  }

  /** A button's payload is that of the last row bearing its name. */
  lemma {:induction false} ButtonsLastRowWins(rows: seq<Totp>, command: string, handle: nat, name: string)
    requires name in Buttons(rows, command, handle)
    ensures exists i :: (0 <= i < |rows| && rows[i].name == name
      && Buttons(rows, command, handle)[name] == EntryPayload(command, rows[i].id, handle)
      && forall j :: i < j < |rows| ==> rows[j].name != name)
    decreases |rows|
  {
    var init := rows[..|rows| - 1];
    var last := rows[|rows| - 1];
    if last.name != name {
      ButtonsLastRowWins(init, command, handle, name);
      var i :| 0 <= i < |init| && init[i].name == name
        && Buttons(init, command, handle)[name] == EntryPayload(command, init[i].id, handle)
        && forall j :: i < j < |init| ==> init[j].name != name;
      assert rows[i] == init[i];
      assert forall j :: i < j < |rows| ==> rows[j].name != name by {
        forall j | i < j < |rows| ensures rows[j].name != name {
          if j < |init| {
            assert rows[j] == init[j];
          }
        }
      }
    }
  }

  /**
   * Every button of the keyboard decodes, with the keyboard's command, to
   * the id of a listed TOTP bearing the button's name and the keyboard's
   * handle.
   */
  lemma ButtonsDecode(rows: seq<Totp>, command: string, handle: nat, name: string)
    requires command != [] && handle <= MaxUint64
    requires forall r :: r in rows ==> r.id <= MaxUint64
    requires name in Buttons(rows, command, handle)
    ensures exists r :: (r in rows && r.name == name
      && Decode(command, Buttons(rows, command, handle)[name]) == Decoded([r.id, handle], None))
  {
    ButtonsLastRowWins(rows, command, handle, name);
    var i :| 0 <= i < |rows| && rows[i].name == name
      && Buttons(rows, command, handle)[name] == EntryPayload(command, rows[i].id, handle)
      && forall j :: i < j < |rows| ==> rows[j].name != name;
    assert rows[i] in rows;
    DecodeEntryPayload(command, rows[i].id, handle);
  }

  /**
   * A keyboard costs exactly one new handle, owned by the user, holding
   * the id of the message Telegram returned (0 when none was returned or
   * the update failed); the message offers one button per name of the
   * user's TOTPs and a Cancel button, all bound to that handle.
   */
  lemma KeyboardCreatesOneHandle(v: Variant, t: Tables, env: Env, chat: int, user: int, command: string, prompt: string)
    requires t.Valid()
    requires ListTotpsCall !in env.faults && SaveEditableMessageCall !in env.faults
    requires exists x :: x in t.totps && x.userId == user
    ensures var r := KeyboardReaction(v, t, env, chat, user, command, prompt);
      var h := t.nextCacheId;
      var recorded := if env.sentMessageId.Some? && UpdateEditableMessageCall !in env.faults then env.sentMessageId.value else 0;
      var buttons := Buttons(t.ListTotps(user, None).value, command, h);
      && r.tables == t.(caches := t.caches + [EditableMessageCache(h, user, recorded)], nextCacheId := h + 1)
      && r.actions == [Typing(chat), Send(chat, Plain(prompt), InlineKeyboard(buttons, Some(CancelPayload(h))))]
      && !r.panicked
  {
    var listed := t.ListTotps(user, None).value;
    var x :| x in t.totps && x.userId == user;
    assert x in listed;
    var saved := t.SaveEditableMessage(user, None);
    var h := t.nextCacheId;
    if env.sentMessageId.Some? && UpdateEditableMessageCall !in env.faults {
      var sent := env.sentMessageId.value;
      var updated := saved.tables.UpdateEditableMessage(h, sent, None).tables;
      var expected := t.caches + [EditableMessageCache(h, user, sent)];
      assert |updated.caches| == |expected|;
      forall i | 0 <= i < |expected| ensures updated.caches[i] == expected[i] {
        if i < |t.caches| {
          assert t.caches[i] in t.caches;
        }
      }
    }
  }

  // ---------------------------------------------------------------------
  // The creation dialog
  // ---------------------------------------------------------------------

  /** A free text from a user without a draft opens a draft named by the text and asks for the secret. */
  lemma NameStepOpensDraft(v: Variant, t: Tables, env: Env, m: Message, text: string)
    requires m.text == Some(text) && !HasPrefix(text, "/")
    requires GetTempTotpCall !in env.faults && SaveTempTotpCall !in env.faults
    requires forall d :: d in t.temps ==> d.userId != m.userId
    ensures MessageReaction(v, t, env, m) == Reaction(
      t.(temps := t.temps + [TempTotp(t.nextTempId, m.userId, Some(text))], nextTempId := t.nextTempId + 1),
      [Typing(m.chatId), Send(m.chatId, Plain("Input secret for your TOTP `" + text + "`:"), NoMarkup)],
      false)
  {
  }

  /**
   * A free text from a user whose draft is named becomes the secret: one
   * TOTP with that name and the normalised secret is added, the draft (and
   * no other row) is deleted, and the user's message is deleted before the
   * confirmation is sent.
   */
  lemma SecretStepCreatesTotp(v: Variant, t: Tables, env: Env, m: Message, text: string, draft: TempTotp)
    requires t.Valid()
    requires m.text == Some(text) && !HasPrefix(text, "/")
    requires GetTempTotpCall !in env.faults && SaveTotpCall !in env.faults && DeleteTempTotpCall !in env.faults
    requires t.GetTempTotp(m.userId, None).value == draft && draft.name.Some?
    ensures var r := MessageReaction(v, t, env, m);
      && r.tables.totps == t.totps + [Totp(t.nextTotpId, m.userId, draft.name.value, NormalizeSecret(text))]
      && draft in t.temps && draft !in r.tables.temps
      && (forall d :: d in r.tables.temps <==> d in t.temps && d != draft)
      && r.actions == [Typing(m.chatId), DeleteMessage(m.chatId, m.messageId),
                       Send(m.chatId, Plain("Your TOTP `" + draft.name.value + "` was successfully created."), v.Keyboard())]
  {
    assert draft != ZeroTempTotp;
    assert MessageReaction(v, t, env, m) == DialogReaction(v, t, env, m, text);
    assert DialogReaction(v, t, env, m, text) == SecretStep(v, t, env, m, draft, draft.name.value, text);
    SecretStepOutcome(v, t, env, m, draft, text);
  }

  /** The secret step itself, for a draft of the user's, when neither database call fails. */
  lemma SecretStepOutcome(v: Variant, t: Tables, env: Env, m: Message, draft: TempTotp, text: string)
    requires t.Valid()
    requires SaveTotpCall !in env.faults && DeleteTempTotpCall !in env.faults
    requires draft in t.temps && draft.userId == m.userId && draft.name.Some?
    ensures var r := SecretStep(v, t, env, m, draft, draft.name.value, text);
      && r.tables.totps == t.totps + [Totp(t.nextTotpId, m.userId, draft.name.value, NormalizeSecret(text))]
      && (forall d :: d in r.tables.temps <==> d in t.temps && d != draft)
      && r.actions == [Typing(m.chatId), DeleteMessage(m.chatId, m.messageId),
                       Send(m.chatId, Plain("Your TOTP `" + draft.name.value + "` was successfully created."), v.Keyboard())]
  {
    SecretStepActions(v, env, t, m, draft, text);
    SecretStepTables(v, env, t, m, draft, text);
  }

  /** The replies of a secret step in which neither database call fails. */
  lemma SecretStepActions(v: Variant, env: Env, t: Tables, m: Message, draft: TempTotp, text: string)
    requires SaveTotpCall !in env.faults && DeleteTempTotpCall !in env.faults
    requires draft.name.Some?
    ensures SecretStep(v, t, env, m, draft, draft.name.value, text).actions
         == [Typing(m.chatId), DeleteMessage(m.chatId, m.messageId),
             Send(m.chatId, Plain("Your TOTP `" + draft.name.value + "` was successfully created."), v.Keyboard())]
  {
    var chat, name := m.chatId, draft.name.value;
    assert Fault(env, SaveTotpCall) == None && Fault(env, DeleteTempTotpCall) == None;
    var saved := t.SaveTotp(m.userId, name, text, None);
    var deleted := saved.tables.DeleteTempTotp(m.userId, draft.id, None);
    assert saved.err.None? && deleted.err.None?;
    var created := Send(chat, Plain("Your TOTP `" + name + "` was successfully created."), v.Keyboard());
    assert [Typing(chat)] + [] + [DeleteMessage(chat, m.messageId), created]
        == [Typing(chat), DeleteMessage(chat, m.messageId), created];
  }

  /** The tables after a secret step in which neither database call fails: one TOTP more, the draft gone. */
  lemma SecretStepTables(v: Variant, env: Env, t: Tables, m: Message, draft: TempTotp, text: string)
    requires t.Valid()
    requires SaveTotpCall !in env.faults && DeleteTempTotpCall !in env.faults
    requires draft in t.temps && draft.userId == m.userId && draft.name.Some?
    ensures var r := SecretStep(v, t, env, m, draft, draft.name.value, text);
      && r.tables.totps == t.totps + [Totp(t.nextTotpId, m.userId, draft.name.value, NormalizeSecret(text))]
      && (forall d :: d in r.tables.temps <==> d in t.temps && d != draft)
  {
    assert Fault(env, SaveTotpCall) == None && Fault(env, DeleteTempTotpCall) == None;
    var saved := t.SaveTotp(m.userId, draft.name.value, text, None);
    assert saved.err.None? && saved.tables.temps == t.temps;
    var deleted := saved.tables.DeleteTempTotp(m.userId, draft.id, None);
    assert deleted.err.None? && deleted.tables.totps == saved.tables.totps;
    forall d | d in t.temps && d.userId == m.userId && d.id == draft.id ensures d == draft {
      IdsUnique(t.temps, TempTotpId, t.nextTempId, d, draft);
    }
  }

  /** When the TOTP cannot be saved, nothing changes and the draft stays for the next attempt. */
  lemma FailedSaveKeepsDraft(v: Variant, t: Tables, env: Env, m: Message, text: string)
    requires m.text == Some(text) && !HasPrefix(text, "/")
    requires GetTempTotpCall !in env.faults && SaveTotpCall in env.faults
    requires t.GetTempTotp(m.userId, None).value.name.Some?
    ensures var name := t.GetTempTotp(m.userId, None).value.name.value;
      MessageReaction(v, t, env, m) ==
        Reaction(t, [Typing(m.chatId), Send(m.chatId, Plain("Failed to save TOTP `" + name + "`"), v.Keyboard())], false)
  {
  }

  // ---------------------------------------------------------------------
  // Invariants of the draft table
  // ---------------------------------------------------------------------

  /** Drafts are only ever created with a name. */
  ghost predicate DraftsNamed(t: Tables) {
    forall d :: d in t.temps ==> d.name.Some?
  }

  ghost predicate OneDraftPerUser(t: Tables) {
    forall a, b :: a in t.temps && b in t.temps && a.userId == b.userId ==> a == b
  }

  /** The rows a button press may touch: handles and, for /del, TOTPs, only ever removed. */
  ghost predicate OnlyRemoves(t: Tables, r: Tables) {
    && r.temps == t.temps
    && r.nextTotpId == t.nextTotpId && r.nextTempId == t.nextTempId && r.nextCacheId == t.nextCacheId
    && (forall x :: x in r.caches ==> x in t.caches)
    && (forall x :: x in r.totps ==> x in t.totps)
  }

  lemma ConsumeHandleOnlyRemovesHandles(t: Tables, env: Env, chat: int, handle: nat, text: string, before: seq<Action>)
    ensures var r := ConsumeHandle(t, env, chat, handle, text, before).tables;
      OnlyRemoves(t, r) && r.totps == t.totps
  {
  }

  lemma DeleteButtonOnlyRemoves(t: Tables, env: Env, q: CallbackQuery, data: string)
    ensures OnlyRemoves(t, DeleteButtonReaction(t, env, q, data).tables)
  {
    var d := Decode(CmdDelete, data);
    if |d.ids| >= 2 && d.err.None? {
      var deleted := t.DeleteTotp(q.userId, d.ids[0], Fault(env, DeleteTotpCall));
      if deleted.err.None? {
        ConsumeHandleOnlyRemovesHandles(deleted.tables, env, q.chatId, d.ids[1], "Your TOTP was successfully deleted.", [Typing(q.chatId)]);
      }
    }
  }

  lemma OtpButtonOnlyRemovesHandles(t: Tables, env: Env, q: CallbackQuery, data: string)
    ensures var r := OtpButtonReaction(t, env, q, data).tables;
      OnlyRemoves(t, r) && r.totps == t.totps
  {
    var d := Decode(CmdOtp, data);
    if |d.ids| >= 2 && d.err.None? {
      var generated := t.GenerateTotp(q.userId, d.ids[0], Fault(env, GetTotpCall), env.otp);
      if generated.err.None? {
        ConsumeHandleOnlyRemovesHandles(t, env, q.chatId, d.ids[1], generated.value, [Typing(q.chatId)]);
      }
    }
  }

  lemma CancelButtonOnlyRemovesHandles(t: Tables, env: Env, q: CallbackQuery, data: string)
    ensures var r := CancelButtonReaction(t, env, q, data).tables;
      OnlyRemoves(t, r) && r.totps == t.totps
  {
    var d := Decode(CmdCancel, data);
    if d.err.None? {
      ConsumeHandleOnlyRemovesHandles(t, env, q.chatId, d.ids[0], "Canceled", [Typing(q.chatId)]);
    }
  }

  /** Button presses never touch drafts, never create rows, and only a /del button can remove a TOTP. */
  lemma ButtonsLeaveDraftsAlone(v: Variant, t: Tables, env: Env, q: CallbackQuery)
    ensures OnlyRemoves(t, CallbackReaction(v, t, env, q).tables)
    ensures q.data.None? || !HasPrefix(q.data.value, CmdDelete) ==> CallbackReaction(v, t, env, q).tables.totps == t.totps
  {
    var r := CallbackReaction(v, t, env, q);
    if q.data.Some? {
      var data := q.data.value;
      if HasPrefix(data, CmdDelete) {
        assert r == DeleteButtonReaction(t, env, q, data);
        DeleteButtonOnlyRemoves(t, env, q, data);
      } else if HasPrefix(data, CmdOtp) {
        assert r == OtpButtonReaction(t, env, q, data);
        OtpButtonOnlyRemovesHandles(t, env, q, data);
      } else if HasPrefix(data, CmdHelp) {
        assert r.tables == t;
      } else if HasPrefix(data, CmdCancel) {
        assert r == CancelButtonReaction(t, env, q, data);
        CancelButtonOnlyRemovesHandles(t, env, q, data);
      } else {
        assert r.tables == t;
      }
    }
  }

  /** The dialog step's effect on the draft table: at most one draft added, for the user and named by the text; the rest only shrinks. */
  lemma DialogDrafts(v: Variant, t: Tables, env: Env, m: Message, text: string)
    ensures var r := DialogReaction(v, t, env, m, text).tables;
      (forall d :: d in r.temps ==> d in t.temps) ||
      r.temps == t.temps + [TempTotp(t.nextTempId, m.userId, Some(text))]
    ensures var r := DialogReaction(v, t, env, m, text).tables;
      r.temps == t.temps + [TempTotp(t.nextTempId, m.userId, Some(text))] ==>
        t.GetTempTotp(m.userId, Fault(env, GetTempTotpCall)).value.name.None?
  {
    var temp := t.GetTempTotp(m.userId, Fault(env, GetTempTotpCall)).value;
    if temp.name.Some? {
      var r := DialogReaction(v, t, env, m, text).tables;
      assert r.temps != t.temps + [TempTotp(t.nextTempId, m.userId, Some(text))] by {
        assert |r.temps| <= |t.temps|;
      }
    }
  }

  /** Every update keeps all drafts named. */
  lemma UpdateKeepsDraftsNamed(v: Variant, t: Tables, env: Env, u: Update)
    requires DraftsNamed(t)
    ensures DraftsNamed(UpdateReaction(v, t, env, u).tables)
  {
    match u
    case CallbackUpdate(q) =>
      ButtonsLeaveDraftsAlone(v, t, env, q);
    case MessageUpdate(m) =>
      if m.text.Some? && !HasPrefix(m.text.value, "/") {
        DialogDrafts(v, t, env, m, m.text.value);
      } else if m.text.Some? {
        CommandsLeaveDialogAlone(v, t, env, m);
      }
  }

  /**
   * While drafts are named, every update keeps at most one draft per user,
   * provided the draft lookup does not fail (a failed lookup is ignored and
   * looks like "no draft").
   */
  lemma UpdateKeepsOneDraftPerUser(v: Variant, t: Tables, env: Env, u: Update)
    requires DraftsNamed(t) && OneDraftPerUser(t)
    requires GetTempTotpCall !in env.faults
    ensures OneDraftPerUser(UpdateReaction(v, t, env, u).tables)
  {
    match u
    case CallbackUpdate(q) =>
      ButtonsLeaveDraftsAlone(v, t, env, q);
    case MessageUpdate(m) =>
      if m.text.Some? && !HasPrefix(m.text.value, "/") {
        var text := m.text.value;
        DialogDrafts(v, t, env, m, text);
        var r := DialogReaction(v, t, env, m, text).tables;
        var added := TempTotp(t.nextTempId, m.userId, Some(text));
        if r.temps == t.temps + [added] {
          var temp := t.GetTempTotp(m.userId, None).value;
          assert forall d :: d in t.temps ==> d.userId != m.userId;
          forall a, b | a in r.temps && b in r.temps && a.userId == b.userId ensures a == b {
            assert a in t.temps || a == added;
            assert b in t.temps || b == added;
          }
        }
      } else if m.text.Some? {
        CommandsLeaveDialogAlone(v, t, env, m);
      }
  }

  /** A failed draft lookup starts a second draft for a user who already has one. */
  lemma LookupFailureDuplicatesDraft()
    ensures var t := Tables([], [TempTotp(1, 7, Some("github"))], [], 1, 2, 1);
      var env := Env(map[GetTempTotpCall := "database is locked"], None, (s: string) => s);
      var r := MessageReaction(RootBot, t, env, Message(1, 7, 10, Some("gitlab")));
      && DraftsNamed(t) && OneDraftPerUser(t)
      && r.tables.temps == [TempTotp(1, 7, Some("github")), TempTotp(2, 7, Some("gitlab"))]
      && !OneDraftPerUser(r.tables)
  {
    var t := Tables([], [TempTotp(1, 7, Some("github"))], [], 1, 2, 1);
    var text := "gitlab";
    assert !HasPrefix(text, "/") by {
      assert text[0] == 'g';
    }
    var r := MessageReaction(RootBot, t, Env(map[GetTempTotpCall := "database is locked"], None, (s: string) => s), Message(1, 7, 10, Some(text)));
    assert r.tables.temps[0] in r.tables.temps && r.tables.temps[1] in r.tables.temps;
  }

  // ---------------------------------------------------------------------
  // Button presses
  // ---------------------------------------------------------------------

  /** Which branch of handleCallbackQuery a button's payload reaches: the command it starts with. */
  lemma PayloadPrefixes(command: string, rest: string)
    requires command == CmdDelete || command == CmdOtp || command == CmdCancel
    ensures HasPrefix(command + rest, CmdDelete) <==> command == CmdDelete
    ensures HasPrefix(command + rest, CmdOtp) <==> command == CmdOtp
    ensures !HasPrefix(command + rest, CmdHelp)
    ensures HasPrefix(command + rest, CmdCancel) <==> command == CmdCancel
  {
    var s := command + rest;
    assert s[..|command|] == command;
    assert s[1] == command[1] && s[2] == command[2];
  }

  /** A payload starting with one of the button commands reaches that command's handler. */
  lemma Dispatch(v: Variant, t: Tables, env: Env, q: CallbackQuery, command: string, rest: string)
    requires command == CmdDelete || command == CmdOtp || command == CmdCancel
    requires q.data == Some(command + rest)
    ensures command == CmdDelete ==> CallbackReaction(v, t, env, q) == DeleteButtonReaction(t, env, q, command + rest)
    ensures command == CmdOtp ==> CallbackReaction(v, t, env, q) == OtpButtonReaction(t, env, q, command + rest)
    ensures command == CmdCancel ==> CallbackReaction(v, t, env, q) == CancelButtonReaction(t, env, q, command + rest)
  {
    PayloadPrefixes(command, rest);
  }

  /**
   * A /del or /otp payload with a single number panics at ids[1] before
   * anything else happens: only the typing notice has been sent.
   */
  lemma SingleNumberPanics(v: Variant, t: Tables, env: Env, q: CallbackQuery, command: string, n: nat)
    requires command == CmdDelete || command == CmdOtp
    requires n <= MaxUint64
    requires q.data == Some(command + " " + Decimal(n))
    ensures CallbackReaction(v, t, env, q) == Reaction(t, [Typing(q.chatId)], true)
  {
    assert command + (" " + Decimal(n)) == command + " " + Decimal(n);
    Dispatch(v, t, env, q, command, " " + Decimal(n));
    DecodeSingleNumber(command, n);
  }

  /** The /del handler on a payload with two numbers and a parse error. */
  lemma DeleteRejected(t: Tables, env: Env, q: CallbackQuery, data: string)
    requires |Decode(CmdDelete, data).ids| >= 2 && Decode(CmdDelete, data).err.Some?
    ensures DeleteButtonReaction(t, env, q, data) ==
      Reaction(t, [Typing(q.chatId), Send(q.chatId, Plain("Invalid callback query data: " + data), NoMarkup)], false)
  {
    var typing := [Typing(q.chatId)];
    var reply := Send(q.chatId, Plain("Invalid callback query data: " + data), NoMarkup);
    assert DeleteButtonReaction(t, env, q, data) == Reaction(t, typing + [reply], false);
    assert typing + [reply] == [Typing(q.chatId), reply];
  }

  /** The /otp handler on a payload with two numbers and a parse error. */
  lemma OtpRejected(t: Tables, env: Env, q: CallbackQuery, data: string)
    requires |Decode(CmdOtp, data).ids| >= 2 && Decode(CmdOtp, data).err.Some?
    ensures OtpButtonReaction(t, env, q, data) ==
      Reaction(t, [Typing(q.chatId), Send(q.chatId, Plain("Invalid callback query data: " + data), NoMarkup)], false)
  {
    var typing := [Typing(q.chatId)];
    var reply := Send(q.chatId, Plain("Invalid callback query data: " + data), NoMarkup);
    assert OtpButtonReaction(t, env, q, data) == Reaction(t, typing + [reply], false);
    assert typing + [reply] == [Typing(q.chatId), reply];
  }

  /** The Cancel handler on a payload with a parse error. */
  lemma CancelRejected(t: Tables, env: Env, q: CallbackQuery, data: string)
    requires Decode(CmdCancel, data).err.Some?
    ensures CancelButtonReaction(t, env, q, data) ==
      Reaction(t, [Typing(q.chatId), Send(q.chatId, Plain("Invalid callback query data: " + data), NoMarkup)], false)
  {
    var typing := [Typing(q.chatId)];
    var reply := Send(q.chatId, Plain("Invalid callback query data: " + data), NoMarkup);
    assert CancelButtonReaction(t, env, q, data) == Reaction(t, typing + [reply], false);
    assert typing + [reply] == [Typing(q.chatId), reply];
  }

  /** A Cancel payload whose token is not a number is rejected with "Invalid callback query data" and changes nothing. */
  lemma MalformedCancelChangesNothing(v: Variant, t: Tables, env: Env, q: CallbackQuery, bad: string)
    requires bad == [] || !IsDigit(bad[0])
    requires ',' !in bad && Trimmed(bad)
    requires q.data == Some(CmdCancel + " " + bad)
    ensures CallbackReaction(v, t, env, q) ==
      Reaction(t, [Typing(q.chatId), Send(q.chatId, Plain("Invalid callback query data: " + q.data.value), NoMarkup)], false)
  {
    var data := q.data.value;
    assert CmdCancel + (" " + bad) == data;
    Dispatch(v, t, env, q, CmdCancel, " " + bad);
    DecodeNonNumber(CmdCancel, bad);
    CancelRejected(t, env, q, data);
  }

  /**
   * A /del or /otp payload whose second token is not a number is rejected
   * with "Invalid callback query data" and changes nothing.
   */
  lemma MalformedButtonChangesNothing(v: Variant, t: Tables, env: Env, q: CallbackQuery, command: string, id: nat, bad: string)
    requires command == CmdDelete || command == CmdOtp
    requires id <= MaxUint64
    requires bad == [] || !IsDigit(bad[0])
    requires ',' !in bad && Trimmed(bad)
    requires q.data == Some(command + " " + (Decimal(id) + "," + bad))
    ensures CallbackReaction(v, t, env, q) ==
      Reaction(t, [Typing(q.chatId), Send(q.chatId, Plain("Invalid callback query data: " + q.data.value), NoMarkup)], false)
  {
    var data := q.data.value;
    var rest := " " + (Decimal(id) + "," + bad);
    assert command + rest == data;
    Dispatch(v, t, env, q, command, rest);
    DecodeKeepsPartialResults(command, id, bad);
    if command == CmdDelete {
      DeleteRejected(t, env, q, data);
    } else {
      OtpRejected(t, env, q, data);
    }
  }

  /** What consuming a keyboard handle does when neither database call fails. */
  lemma ConsumeHandleOutcome(t: Tables, env: Env, chat: int, h: nat, text: string, before: seq<Action>)
    requires GetEditableMessageCall !in env.faults && DeleteEditableMessageCall !in env.faults
    ensures var r := ConsumeHandle(t, env, chat, h, text, before);
      && !r.panicked
      && r.tables.totps == t.totps && r.tables.temps == t.temps
      && (forall c :: c in r.tables.caches <==> c in t.caches && c.id != h)
      && r.actions == before + [Edit(chat, t.GetEditableMessage(h, None).value.messageId, text)]
  {
  }

  /** Looking up a handle reads only the cache table. */
  lemma SameCachesSameHandle(t: Tables, u: Tables, h: nat)
    requires t.caches == u.caches
    ensures t.GetEditableMessage(h, None) == u.GetEditableMessage(h, None)
  {
  }

  /** The /del handler on a payload that decoded to [id, h]. */
  lemma DeleteButtonOutcome(t: Tables, env: Env, q: CallbackQuery, data: string, id: nat, h: nat)
    requires Decode(CmdDelete, data) == Decoded([id, h], None)
    requires DeleteTotpCall !in env.faults && GetEditableMessageCall !in env.faults && DeleteEditableMessageCall !in env.faults
    ensures var r := DeleteButtonReaction(t, env, q, data);
      var shown := t.GetEditableMessage(h, None).value.messageId;
      && !r.panicked
      && (forall x :: x in r.tables.totps <==> x in t.totps && !(x.userId == q.userId && x.id == id))
      && (forall c :: c in r.tables.caches <==> c in t.caches && c.id != h)
      && r.tables.temps == t.temps
      && r.actions == [Typing(q.chatId), Edit(q.chatId, shown, "Your TOTP was successfully deleted.")]
    ensures (forall x :: x in t.totps ==> !(x.userId == q.userId && x.id == id)) ==>
      DeleteButtonReaction(t, env, q, data).tables.totps == t.totps
  {
    var deleted := t.DeleteTotp(q.userId, id, None);
    DeleteButtonConsumes(t, env, q, data, id, h);
    assert deleted.tables.caches == t.caches && deleted.tables.temps == t.temps;
    SameCachesSameHandle(deleted.tables, t, h);
    ConsumeHandleOutcome(deleted.tables, env, q.chatId, h, "Your TOTP was successfully deleted.", [Typing(q.chatId)]);
  }

  /** The /del handler on a payload that decoded to [id, h] deletes the row, then consumes the handle. */
  lemma DeleteButtonConsumes(t: Tables, env: Env, q: CallbackQuery, data: string, id: nat, h: nat)
    requires Decode(CmdDelete, data) == Decoded([id, h], None)
    requires DeleteTotpCall !in env.faults
    ensures DeleteButtonReaction(t, env, q, data) ==
      ConsumeHandle(t.DeleteTotp(q.userId, id, None).tables, env, q.chatId, h, "Your TOTP was successfully deleted.", [Typing(q.chatId)])
  {
    assert Fault(env, DeleteTotpCall) == None;
  }

  /**
   * A /del button deletes the presser's TOTP with that id, if there is one,
   * consumes the keyboard handle and reports success in the keyboard's
   * message, even when nothing was deleted.
   */
  lemma PressDeleteButton(v: Variant, t: Tables, env: Env, q: CallbackQuery, id: nat, h: nat)
    requires id <= MaxUint64 && h <= MaxUint64
    requires q.data == Some(EntryPayload(CmdDelete, id, h))
    requires DeleteTotpCall !in env.faults && GetEditableMessageCall !in env.faults && DeleteEditableMessageCall !in env.faults
    ensures var r := CallbackReaction(v, t, env, q);
      var shown := t.GetEditableMessage(h, None).value.messageId;
      && !r.panicked
      && (forall x :: x in r.tables.totps <==> x in t.totps && !(x.userId == q.userId && x.id == id))
      && (forall c :: c in r.tables.caches <==> c in t.caches && c.id != h)
      && r.tables.temps == t.temps
      && r.actions == [Typing(q.chatId), Edit(q.chatId, shown, "Your TOTP was successfully deleted.")]
    ensures (forall x :: x in t.totps ==> !(x.userId == q.userId && x.id == id)) ==>
      CallbackReaction(v, t, env, q).tables.totps == t.totps
  {
    var data := EntryPayload(CmdDelete, id, h);
    var rest := " " + (Decimal(id) + "," + Decimal(h));
    assert CmdDelete + rest == data;
    Dispatch(v, t, env, q, CmdDelete, rest);
    DecodeEntryPayload(CmdDelete, id, h);
    DeleteButtonOutcome(t, env, q, data, id, h);
  }

  /** The /otp handler on a payload that decoded to [row.id, h], for a row of the presser's. */
  lemma OtpButtonOutcome(t: Tables, env: Env, q: CallbackQuery, data: string, row: Totp, h: nat)
    requires t.Valid()
    requires row in t.totps && row.userId == q.userId
    requires Decode(CmdOtp, data) == Decoded([row.id, h], None)
    requires GetTotpCall !in env.faults && GetEditableMessageCall !in env.faults && DeleteEditableMessageCall !in env.faults
    ensures var r := OtpButtonReaction(t, env, q, data);
      var shown := t.GetEditableMessage(h, None).value.messageId;
      && !r.panicked
      && r.tables.totps == t.totps && r.tables.temps == t.temps
      && (forall c :: c in r.tables.caches <==> c in t.caches && c.id != h)
      && r.actions == [Typing(q.chatId), Edit(q.chatId, shown, env.otp(row.secret))]
  {
    OtpButtonConsumes(t, env, q, data, row, h);
    ConsumeHandleOutcome(t, env, q.chatId, h, env.otp(row.secret), [Typing(q.chatId)]);
  }

  /** The /otp handler on a payload naming one of the presser's TOTPs goes on to consume the handle with that TOTP's code. */
  lemma OtpButtonConsumes(t: Tables, env: Env, q: CallbackQuery, data: string, row: Totp, h: nat)
    requires t.Valid()
    requires row in t.totps && row.userId == q.userId
    requires Decode(CmdOtp, data) == Decoded([row.id, h], None)
    requires GetTotpCall !in env.faults
    ensures OtpButtonReaction(t, env, q, data) == ConsumeHandle(t, env, q.chatId, h, env.otp(row.secret), [Typing(q.chatId)])
  {
    assert Fault(env, GetTotpCall) == None;
    GeneratedCode(t, q.userId, row, env.otp);
  }

  /** GenerateTOTP on one of the user's own TOTPs yields that TOTP's code: ids are unique, so no other row answers. */
  lemma GeneratedCode(t: Tables, userId: int, row: Totp, otp: string -> string)
    requires t.Valid()
    requires row in t.totps && row.userId == userId
    ensures t.GenerateTotp(userId, row.id, None, otp) == Found(otp(row.secret), None)
  {
    var found := t.GetTotp(userId, row.id, None).value;
    IdsUnique(t.totps, TotpId, t.nextTotpId, found, row);
  }

  /** An /otp button for one of the presser's TOTPs replaces the keyboard's message with that TOTP's current code. */
  lemma PressOtpButton(v: Variant, t: Tables, env: Env, q: CallbackQuery, row: Totp, h: nat)
    requires t.Valid()
    requires row in t.totps && row.userId == q.userId
    requires row.id <= MaxUint64 && h <= MaxUint64
    requires q.data == Some(EntryPayload(CmdOtp, row.id, h))
    requires GetTotpCall !in env.faults && GetEditableMessageCall !in env.faults && DeleteEditableMessageCall !in env.faults
    ensures var r := CallbackReaction(v, t, env, q);
      var shown := t.GetEditableMessage(h, None).value.messageId;
      && !r.panicked
      && r.tables.totps == t.totps && r.tables.temps == t.temps
      && (forall c :: c in r.tables.caches <==> c in t.caches && c.id != h)
      && r.actions == [Typing(q.chatId), Edit(q.chatId, shown, env.otp(row.secret))]
  {
    var data := EntryPayload(CmdOtp, row.id, h);
    var rest := " " + (Decimal(row.id) + "," + Decimal(h));
    assert CmdOtp + rest == data;
    Dispatch(v, t, env, q, CmdOtp, rest);
    DecodeEntryPayload(CmdOtp, row.id, h);
    OtpButtonOutcome(t, env, q, data, row, h);
  }

  /** gorm's ErrRecordNotFound as the /otp handler words it. */
  lemma NotFoundText()
    ensures "Failed to generate OTP: " + ErrorText(NotFound) == "Failed to generate OTP: record not found"
  {
  }

  /** The /otp handler on a payload that decoded to [id, h] when the presser has no TOTP with that id. */
  lemma MissingOtpOutcome(t: Tables, env: Env, q: CallbackQuery, data: string, id: nat, h: nat)
    requires Decode(CmdOtp, data) == Decoded([id, h], None)
    requires forall x :: x in t.totps ==> !(x.userId == q.userId && x.id == id)
    requires GetTotpCall !in env.faults
    ensures OtpButtonReaction(t, env, q, data) ==
      Reaction(t, [Typing(q.chatId), Send(q.chatId, Plain("Failed to generate OTP: record not found"), NoMarkup)], false)
  {
    assert t.GenerateTotp(q.userId, id, None, env.otp).err == Some(NotFound);
    NotFoundText();
  }

  /** An /otp button for a TOTP the presser does not own (or that is gone) reports "record not found" and keeps the keyboard. */
  lemma PressOtpButtonOfMissingTotp(v: Variant, t: Tables, env: Env, q: CallbackQuery, id: nat, h: nat)
    requires id <= MaxUint64 && h <= MaxUint64
    requires q.data == Some(EntryPayload(CmdOtp, id, h))
    requires forall x :: x in t.totps ==> !(x.userId == q.userId && x.id == id)
    requires GetTotpCall !in env.faults
    ensures CallbackReaction(v, t, env, q) ==
      Reaction(t, [Typing(q.chatId), Send(q.chatId, Plain("Failed to generate OTP: record not found"), NoMarkup)], false)
  {
    var data := EntryPayload(CmdOtp, id, h);
    var rest := " " + (Decimal(id) + "," + Decimal(h));
    assert CmdOtp + rest == data;
    Dispatch(v, t, env, q, CmdOtp, rest);
    DecodeEntryPayload(CmdOtp, id, h);
    MissingOtpOutcome(t, env, q, data, id, h);
  }

  /** The Cancel handler on a payload that decoded to [h]; an absent handle is found as the zero record. */
  lemma CancelOutcome(t: Tables, env: Env, q: CallbackQuery, data: string, h: nat)
    requires Decode(CmdCancel, data) == Decoded([h], None)
    requires GetEditableMessageCall !in env.faults && DeleteEditableMessageCall !in env.faults
    ensures var r := CancelButtonReaction(t, env, q, data);
      var shown := t.GetEditableMessage(h, None).value.messageId;
      && !r.panicked
      && r.tables.totps == t.totps && r.tables.temps == t.temps
      && (forall c :: c in r.tables.caches <==> c in t.caches && c.id != h)
      && r.actions == [Typing(q.chatId), Edit(q.chatId, shown, "Canceled")]
    ensures (forall c :: c in t.caches ==> c.id != h) ==>
      CancelButtonReaction(t, env, q, data) == Reaction(t, [Typing(q.chatId), Edit(q.chatId, 0, "Canceled")], false)
  {
    ConsumeHandleOutcome(t, env, q.chatId, h, "Canceled", [Typing(q.chatId)]);
  }

  /**
   * The Cancel button replaces the keyboard's message with "Canceled" and
   * consumes the handle; a handle already consumed is looked up as the zero
   * record, so the edit goes to message 0 and nothing changes.
   */
  lemma PressCancelButton(v: Variant, t: Tables, env: Env, q: CallbackQuery, h: nat)
    requires h <= MaxUint64
    requires q.data == Some(CancelPayload(h))
    requires GetEditableMessageCall !in env.faults && DeleteEditableMessageCall !in env.faults
    ensures var r := CallbackReaction(v, t, env, q);
      var shown := t.GetEditableMessage(h, None).value.messageId;
      && !r.panicked
      && r.tables.totps == t.totps && r.tables.temps == t.temps
      && (forall c :: c in r.tables.caches <==> c in t.caches && c.id != h)
      && r.actions == [Typing(q.chatId), Edit(q.chatId, shown, "Canceled")]
    ensures (forall c :: c in t.caches ==> c.id != h) ==>
      CallbackReaction(v, t, env, q) == Reaction(t, [Typing(q.chatId), Edit(q.chatId, 0, "Canceled")], false)
  {
    var rest := " " + Decimal(h);
    assert CmdCancel + rest == CancelPayload(h);
    Dispatch(v, t, env, q, CmdCancel, rest);
    DecodeCancelPayload(h);
    CancelOutcome(t, env, q, CancelPayload(h), h);
  }

  // ---------------------------------------------------------------------
  // A keyboard and a press
  // ---------------------------------------------------------------------

  /** The handle a keyboard creates is the only row with its id, and it holds the sent message's id. */
  lemma KeyboardHandle(v: Variant, t: Tables, otp: string -> string, chat: int, user: int, command: string, prompt: string, sent: int)
    requires t.Valid()
    requires exists x :: x in t.totps && x.userId == user
    ensures var k := KeyboardReaction(v, t, Env(map[], Some(sent), otp), chat, user, command, prompt).tables;
      && k.Valid()
      && k.totps == t.totps && k.temps == t.temps
      && k.GetEditableMessage(t.nextCacheId, None).value.messageId == sent
      && (forall c :: c in k.caches && c.id != t.nextCacheId <==> c in t.caches)
  {
    var env := Env(map[], Some(sent), otp);
    KeyboardCreatesOneHandle(v, t, env, chat, user, command, prompt);
    var k := KeyboardReaction(v, t, env, chat, user, command, prompt).tables;
    var h := t.nextCacheId;
    var handle := EditableMessageCache(h, user, sent);
    assert k.caches == t.caches + [handle];
    assert handle in k.caches;
    assert k.Valid() by {
      AppendKeepsIds(t.caches, handle, CacheId, h);
    }
    var got := k.GetEditableMessage(h, None).value;
    IdsUnique(k.caches, CacheId, k.nextCacheId, got, handle);
  }

  /** The button a keyboard shows under a name carries the id of a listed row with that name. */
  lemma ButtonRow(t: Tables, user: int, command: string, h: nat, name: string) returns (row: Totp)
    requires name in Buttons(t.ListTotps(user, None).value, command, h)
    ensures row in t.totps && row.userId == user && row.name == name
    ensures Buttons(t.ListTotps(user, None).value, command, h)[name] == EntryPayload(command, row.id, h)
  {
    var listed := t.ListTotps(user, None).value;
    ButtonsLastRowWins(listed, command, h, name);
    var i :| 0 <= i < |listed| && listed[i].name == name
      && Buttons(listed, command, h)[name] == EntryPayload(command, listed[i].id, h)
      && forall j :: i < j < |listed| ==> listed[j].name != name;
    row := listed[i];
    assert row in listed;
  }

  /** In valid tables, the presser's row with a given id is that row and no other. */
  lemma OnlyThatRow(t: Tables, row: Totp)
    requires t.Valid() && row in t.totps
    ensures forall x :: x in t.totps && !(x.userId == row.userId && x.id == row.id) <==> x in t.totps && x != row
  {
    forall x | x in t.totps && x.userId == row.userId && x.id == row.id ensures x == row {
      IdsUnique(t.totps, TotpId, t.nextTotpId, x, row);
    }
  }

  /**
   * /del and then a press on one of its buttons: the TOTP the button was
   * made for, and only that one, is deleted; the keyboard's message becomes
   * the success notice; and the keyboard handle is gone again.
   */
  lemma DeleteKeyboardRoundTrip(v: Variant, t: Tables, otp: string -> string, chat: int, user: int, sent: int, name: string)
    requires t.Valid()
    requires forall x :: x in t.totps ==> x.id <= MaxUint64
    requires t.nextCacheId <= MaxUint64
    requires name in Buttons(t.ListTotps(user, None).value, CmdDelete, t.nextCacheId)
    ensures var k := KeyboardReaction(v, t, Env(map[], Some(sent), otp), chat, user, CmdDelete, "Select TOTP to delete:");
      var payload := Buttons(t.ListTotps(user, None).value, CmdDelete, t.nextCacheId)[name];
      var p := CallbackReaction(v, k.tables, Calm(otp), CallbackQuery(chat, user, Some(payload)));
      && (exists row :: (row in t.totps && row.userId == user && row.name == name
            && forall x :: x in p.tables.totps <==> x in t.totps && x != row))
      && (forall c :: c in p.tables.caches <==> c in t.caches)
      && p.actions == [Typing(chat), Edit(chat, sent, "Your TOTP was successfully deleted.")]
  {
    KeyboardHandle(v, t, otp, chat, user, CmdDelete, "Select TOTP to delete:", sent);
    var k := KeyboardReaction(v, t, Env(map[], Some(sent), otp), chat, user, CmdDelete, "Select TOTP to delete:").tables;
    DeleteOnKeyboard(v, t, k, otp, chat, user, sent, name);
  }

  /** The press half of DeleteKeyboardRoundTrip, on tables k that hold the keyboard's handle. */
  lemma DeleteOnKeyboard(v: Variant, t: Tables, k: Tables, otp: string -> string, chat: int, user: int, sent: int, name: string)
    requires t.Valid()
    requires forall x :: x in t.totps ==> x.id <= MaxUint64
    requires t.nextCacheId <= MaxUint64
    requires name in Buttons(t.ListTotps(user, None).value, CmdDelete, t.nextCacheId)
    requires k.totps == t.totps && k.temps == t.temps
    requires k.GetEditableMessage(t.nextCacheId, None).value.messageId == sent
    requires forall c :: c in k.caches && c.id != t.nextCacheId <==> c in t.caches
    ensures var payload := Buttons(t.ListTotps(user, None).value, CmdDelete, t.nextCacheId)[name];
      var p := CallbackReaction(v, k, Calm(otp), CallbackQuery(chat, user, Some(payload)));
      && (exists row :: (row in t.totps && row.userId == user && row.name == name
            && forall x :: x in p.tables.totps <==> x in t.totps && x != row))
      && (forall c :: c in p.tables.caches <==> c in t.caches)
      && p.actions == [Typing(chat), Edit(chat, sent, "Your TOTP was successfully deleted.")]
  {
    var h := t.nextCacheId;
    var row := ButtonRow(t, user, CmdDelete, h, name);
    var q := CallbackQuery(chat, user, Some(EntryPayload(CmdDelete, row.id, h)));
    PressDeleteButton(v, k, Calm(otp), q, row.id, h);
    OnlyThatRow(t, row);
  }

  /**
   * /otp and then a press on one of its buttons: the keyboard's message
   * becomes the current code of the TOTP the button was made for, and the
   * keyboard handle is gone again; no TOTP changes.
   */
  lemma OtpKeyboardRoundTrip(v: Variant, t: Tables, otp: string -> string, chat: int, user: int, sent: int, name: string)
    requires t.Valid()
    requires forall x :: x in t.totps ==> x.id <= MaxUint64
    requires t.nextCacheId <= MaxUint64
    requires name in Buttons(t.ListTotps(user, None).value, CmdOtp, t.nextCacheId)
    ensures var k := KeyboardReaction(v, t, Env(map[], Some(sent), otp), chat, user, CmdOtp, "Select TOTP to generate OTP:");
      var payload := Buttons(t.ListTotps(user, None).value, CmdOtp, t.nextCacheId)[name];
      var p := CallbackReaction(v, k.tables, Calm(otp), CallbackQuery(chat, user, Some(payload)));
      && p.tables.totps == t.totps
      && (forall c :: c in p.tables.caches <==> c in t.caches)
      && exists row :: (row in t.totps && row.userId == user && row.name == name
            && p.actions == [Typing(chat), Edit(chat, sent, otp(row.secret))])
  {
    var h := t.nextCacheId;
    var row := ButtonRow(t, user, CmdOtp, h, name);
    KeyboardHandle(v, t, otp, chat, user, CmdOtp, "Select TOTP to generate OTP:", sent);
    var k := KeyboardReaction(v, t, Env(map[], Some(sent), otp), chat, user, CmdOtp, "Select TOTP to generate OTP:").tables;
    PressOtpButton(v, k, Calm(otp), CallbackQuery(chat, user, Some(EntryPayload(CmdOtp, row.id, h))), row, h);
  }

  /**
   * /del or /otp and then a press on the keyboard's Cancel button: the
   * keyboard's message becomes "Canceled" and the tables are back to what
   * they were before the command.
   */
  lemma CancelKeyboardRoundTrip(v: Variant, t: Tables, otp: string -> string, chat: int, user: int, sent: int, command: string, prompt: string)
    requires t.Valid()
    requires t.nextCacheId <= MaxUint64
    requires exists x :: x in t.totps && x.userId == user
    ensures var k := KeyboardReaction(v, t, Env(map[], Some(sent), otp), chat, user, command, prompt);
      var p := CallbackReaction(v, k.tables, Calm(otp), CallbackQuery(chat, user, Some(CancelPayload(t.nextCacheId))));
      && k.actions[1].markup.cancel == Some(CancelPayload(t.nextCacheId))
      && p.tables.totps == t.totps && p.tables.temps == t.temps
      && (forall c :: c in p.tables.caches <==> c in t.caches)
      && p.actions == [Typing(chat), Edit(chat, sent, "Canceled")]
  {
    var env := Env(map[], Some(sent), otp);
    KeyboardCreatesOneHandle(v, t, env, chat, user, command, prompt);
    KeyboardHandle(v, t, otp, chat, user, command, prompt, sent);
    var k := KeyboardReaction(v, t, env, chat, user, command, prompt).tables;
    PressCancelButton(v, k, Calm(otp), CallbackQuery(chat, user, Some(CancelPayload(t.nextCacheId))), t.nextCacheId);
  }
}
