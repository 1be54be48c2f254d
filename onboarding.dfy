/**
  What one step of the start command promises: at most one write, to the sender's
  own row; the language gate before the contact gate before the main menu; and the
  "phone number saved" line exactly when the phone was stored in this step.
 */
module Onboarding {
  import opened Wrappers
  import opened Language
  import opened Text
  import opened Phone
  import opened Keyboards
  import opened Commands

  /** None of the four command tokens can start the same text as another. */
  lemma {:induction false} TokensExclusive(text: string)
    ensures !(StartsWithCI(text, SetLanguageToken) && StartsWithCI(text, SetContactToken))
    ensures !(StartsWithCI(text, SetLanguageToken) && StartsWithCI(text, ChooseLanguageToken))
    ensures !(StartsWithCI(text, SetLanguageToken) && StartsWithCI(text, ChangePhoneToken))
    ensures !(StartsWithCI(text, SetContactToken) && StartsWithCI(text, ChooseLanguageToken))
    ensures !(StartsWithCI(text, SetContactToken) && StartsWithCI(text, ChangePhoneToken))
    ensures !(StartsWithCI(text, ChooseLanguageToken) && StartsWithCI(text, ChangePhoneToken))
  {
    SetTokensExclusive(text);
    PrefixesClash(text, SetLanguageToken, ChooseLanguageToken, 0);
    PrefixesClash(text, SetLanguageToken, ChangePhoneToken, 0);
    PrefixesClash(text, SetContactToken, ChooseLanguageToken, 0);
    PrefixesClash(text, SetContactToken, ChangePhoneToken, 0);
    PrefixesClash(text, ChooseLanguageToken, ChangePhoneToken, 2);
  }

  /**
    The table after a step is the one the parsed command asks for: a language
    update with the third field of a `set_language_` text, a phone update with an
    attached contact, or nothing; and `$contactSet` holds exactly for a phone
    update the database reported as done.
   */
  lemma {:induction false} StoreAfterFollowsParse(users: Users, m: Message, writeOk: bool)
    ensures StoreAfter(users, m, writeOk) ==
      match WriteOf(m)
      case NoWrite => users
      case LanguageWrite(token) => AfterSetLanguage(users, m.userId, token)
      case ContactWrite(raw) => AfterSetContact(users, m.userId, raw, writeOk)
    ensures ContactSaved(m, writeOk) <==> WriteOf(m).ContactWrite? && writeOk
  {
    var text := Trim(m.text);
    SetTokensExclusive(text);
    if StartsWithCI(text, SetLanguageToken) {
      LanguageField(text);
    }
  }

  /**
    A step writes at most one field of one row, the sender's: no row is created or
    removed, every other user's row is unchanged, and the sender's row keeps its
    language or its phone.
   */
  lemma {:induction false} StepWritesOneField(users: Users, m: Message, writeOk: bool)
    ensures StoreAfter(users, m, writeOk).Keys == users.Keys
    ensures forall v :: v in users && v != m.userId ==> StoreAfter(users, m, writeOk)[v] == users[v]
    ensures m.userId in users ==>
      StoreAfter(users, m, writeOk)[m.userId].languageId == users[m.userId].languageId ||
      StoreAfter(users, m, writeOk)[m.userId].phone == users[m.userId].phone
  {
    StoreAfterFollowsParse(users, m, writeOk);
  }

  /**
    `setLanguage(u, token)` writes exactly when the token names a supported
    language, and then writes that language to `u`'s row and nothing else; for any
    other token it returns 0 and leaves the table as it was.
   */
  lemma {:induction false} SetLanguageWritesOnlySupported(users: Users, u: UserId, token: string)
    ensures var after, id := AfterSetLanguage(users, u, token), ParseLanguageId(token);
      && (IsSupported(id) <==> token == "1" || token == "2")
      && (!IsSupported(id) ==> id == Unset && after == users)
      && (IsSupported(id) && u in users ==> after[u] == Row(id, users[u].phone))
      && after.Keys == users.Keys
      && (forall v :: v in users && v != u ==> after[v] == users[v])
  {
  }

  /** A language written by `setLanguage` is what `getLanguage` then reads back. */
  lemma {:induction false} SetLanguageThenGetLanguage(users: Users, u: UserId, token: string)
    requires u in users && IsSupported(ParseLanguageId(token))
    ensures LanguageOf(AfterSetLanguage(users, u, token), u) == ParseLanguageId(token)
  {
  }

  /**
    A phone written by `setContact` is stored normalised: it starts with `+`, holds
    only digits and `+`, keeps the digits of the contact, and is never empty.
   */
  lemma {:induction false} SetContactStoresNormalised(users: Users, u: UserId, raw: string)
    requires u in users
    ensures var phone := AfterSetContact(users, u, raw, true)[u].phone;
      && phone == NormalizePhone(raw)
      && phone != "" && phone[0] == '+' && IsPhoneString(phone)
      && Digits(phone) == Digits(raw)
  {
    NormalizePhoneKeepsDigits(raw);
  }

  /** A user without a row always gets the language picker, and the table is not changed. */
  lemma {:induction false} UnknownUserGetsPicker(users: Users, m: Message, writeOk: bool)
    requires m.userId !in users
    ensures StoreAfter(users, m, writeOk) == users
    ensures ReplyTo(users, m, writeOk) ==
      Reply(m.chatId, [Phrase(DefaultLanguage, "choose_language")], Markup(LanguagePicker, DefaultLanguage))
  {
    StepWritesOneField(users, m, writeOk);
  }

  /**
    A user whose language is unset gets the language picker, in the default
    language, unless this very message selects a supported language. This holds
    even when the message stored a phone number.
   */
  lemma {:induction false} UnsetLanguageGetsPicker(users: Users, m: Message, writeOk: bool)
    requires m.userId in users && users[m.userId].languageId == Unset
    requires !(WriteOf(m).LanguageWrite? && IsSupported(ParseLanguageId(WriteOf(m).token)))
    ensures ReplyTo(users, m, writeOk) ==
      Reply(m.chatId, [Phrase(DefaultLanguage, "choose_language")], Markup(LanguagePicker, DefaultLanguage))
    ensures ContactSaved(m, writeOk) ==>
      StoreAfter(users, m, writeOk)[m.userId] == Row(Unset, NormalizePhone(m.contact.value))
  {
    StoreAfterFollowsParse(users, m, writeOk);
  }

  /**
    A user whose language is unset and whose message selects a supported language
    leaves the picker: the row takes that language and keeps its phone, and the
    reply is the contact prompt when the row has no phone, the main menu otherwise,
    both in the selected language.
   */
  lemma {:induction false} SelectingLanguageLeavesPicker(users: Users, m: Message, writeOk: bool)
    requires m.userId in users && users[m.userId].languageId == Unset
    requires WriteOf(m).LanguageWrite? && IsSupported(ParseLanguageId(WriteOf(m).token))
    ensures var lang, phone := ParseLanguageId(WriteOf(m).token), users[m.userId].phone;
      && StoreAfter(users, m, writeOk)[m.userId] == Row(lang, phone)
      && ReplyTo(users, m, writeOk) ==
           if phone == "" then Reply(m.chatId, [Phrase(lang, "send_your_contacts")], Markup(ContactPrompt, lang))
           else Reply(m.chatId, [Phrase(lang, "choose_action")], Markup(MainMenu, lang))
  {
    StoreAfterFollowsParse(users, m, writeOk);
    TokensExclusive(Trim(m.text));
  }

  /** A `choose_language` text always gets the language picker in the default language. */
  lemma {:induction false} ChooseLanguageGetsPicker(users: Users, m: Message, writeOk: bool)
    requires StartsWithCI(Trim(m.text), ChooseLanguageToken)
    ensures StoreAfter(users, m, writeOk) == users
    ensures ReplyTo(users, m, writeOk) ==
      Reply(m.chatId, [Phrase(DefaultLanguage, "choose_language")], Markup(LanguagePicker, DefaultLanguage))
  {
    TokensExclusive(Trim(m.text));
  }

  /**
    A user with a language but no phone, whose message does not store a phone and
    is not `choose_language`, is asked for the contact, in the language the row
    holds after the step (which is never unset).
   */
  lemma {:induction false} MissingPhoneGetsContactPrompt(users: Users, m: Message, writeOk: bool)
    requires m.userId in users && users[m.userId].languageId != Unset && users[m.userId].phone == ""
    requires !ContactSaved(m, writeOk) && !StartsWithCI(Trim(m.text), ChooseLanguageToken)
    ensures var lang := StoreAfter(users, m, writeOk)[m.userId].languageId;
      && lang != Unset
      && ReplyTo(users, m, writeOk) == Reply(m.chatId, [Phrase(lang, "send_your_contacts")], Markup(ContactPrompt, lang))
  {
    StoreAfterFollowsParse(users, m, writeOk);
    StepWritesOneField(users, m, writeOk);
  }

  /** A user with a language who sends `change_phone_number` is asked for the contact again, in that language. */
  lemma {:induction false} ChangePhoneGetsContactPrompt(users: Users, m: Message, writeOk: bool)
    requires m.userId in users && users[m.userId].languageId != Unset
    requires StartsWithCI(Trim(m.text), ChangePhoneToken)
    ensures StoreAfter(users, m, writeOk) == users
    ensures var lang := users[m.userId].languageId;
      ReplyTo(users, m, writeOk) == Reply(m.chatId, [Phrase(lang, "send_your_contacts")], Markup(ContactPrompt, lang))
  {
    TokensExclusive(Trim(m.text));
  }

  /**
    A user with a language and a phone whose message stores no phone and asks for
    neither picker nor contact prompt gets the main menu with `choose_action` alone.
   */
  lemma {:induction false} ReadyUserGetsMainMenu(users: Users, m: Message, writeOk: bool)
    requires m.userId in users && users[m.userId].languageId != Unset && users[m.userId].phone != ""
    requires !ContactSaved(m, writeOk)
    requires !StartsWithCI(Trim(m.text), ChooseLanguageToken) && !StartsWithCI(Trim(m.text), ChangePhoneToken)
    ensures var lang := StoreAfter(users, m, writeOk)[m.userId].languageId;
      ReplyTo(users, m, writeOk) == Reply(m.chatId, [Phrase(lang, "choose_action")], Markup(MainMenu, lang))
  {
    StoreAfterFollowsParse(users, m, writeOk);
    StepWritesOneField(users, m, writeOk);
  }

  /**
    A user with a language who sends `set_contact` with a contact, stored with
    success, gets the main menu headed by `phone_number_saved`, whatever phone the
    row held before.
   */
  lemma {:induction false} SavedContactGetsConfirmation(users: Users, m: Message)
    requires m.userId in users && users[m.userId].languageId != Unset
    requires ContactSaved(m, true)
    ensures var lang := users[m.userId].languageId;
      ReplyTo(users, m, true) ==
        Reply(m.chatId, [Phrase(lang, "phone_number_saved"), Phrase(lang, "choose_action")], Markup(MainMenu, lang))
  {
    TokensExclusive(Trim(m.text));
    StoreAfterFollowsParse(users, m, true);
  }

  /**
    The `phone_number_saved` line appears only in a main-menu reply to a step that
    stored a phone; and whenever a phone was stored and the user has a language
    afterwards, it does appear.
   */
  lemma {:induction false} SavedLineIffContactSaved(users: Users, m: Message, writeOk: bool)
    ensures var r := ReplyTo(users, m, writeOk);
      (exists l :: Phrase(l, "phone_number_saved") in r.lines) ==> ContactSaved(m, writeOk) && r.markup.menu == MainMenu
    ensures ContactSaved(m, writeOk) && m.userId in users && users[m.userId].languageId != Unset ==>
      ReplyTo(users, m, writeOk).lines[0].key == "phone_number_saved"
  {
    if ContactSaved(m, writeOk) && m.userId in users && users[m.userId].languageId != Unset {
      SavedContactGetsConfirmation(users, m);
    }
  }

  /** Every reply attaches one of the three onboarding keyboards, and the picker always in the default language. */
  lemma {:induction false} ReplyMarkup(users: Users, m: Message, writeOk: bool)
    ensures var r := ReplyTo(users, m, writeOk);
      && r.markup.menu != OthersMenu
      && r.chatId == m.chatId
      && (r.markup.menu == LanguagePicker ==> r.markup.lang == DefaultLanguage)
      && (r.markup.menu != LanguagePicker ==> r.markup.lang != Unset)
  {
  }
}
