/**
  The onboarding conversation of one user, step by step, as the start command
  carries it out: the picker, a language, the contact, and a malformed language
  button that selects nothing. Each example takes its table, message and texts as
  parameters fixed by its `requires`, which keeps the literals out of the verifier's
  context until the proof needs them.
 */
module OnboardingExamples {
  import opened Wrappers
  import opened Language
  import opened Text
  import opened Phone
  import opened Keyboards
  import opened Commands
  import opened Onboarding

  /** Step 1: `/start` from a user whose row has neither language nor phone shows the picker. */
  lemma {:induction false} FirstStartShowsPicker(users: Users, m: Message)
    requires users == map[7 := Row(Unset, "")] && m == Message(70, 7, "", None)
    ensures StoreAfter(users, m, true) == users
    ensures ReplyTo(users, m, true) ==
      Reply(70, [Phrase(DefaultLanguage, "choose_language")], Markup(LanguagePicker, DefaultLanguage))
  {
    assert Trim(m.text) == "";
  }

  /** Step 2: the `set_language_1` button stores language 1 and asks for the contact in it. */
  lemma {:induction false} PickingLanguageAsksForContact(users: Users, m: Message, text: string)
    requires users == map[7 := Row(Unset, "")] && text == "set_language_1" && m == Message(70, 7, text, None)
    ensures StoreAfter(users, m, true) == map[7 := Row(1, "")]
    ensures ReplyTo(users, m, true) == Reply(70, [Phrase(1, "send_your_contacts")], Markup(ContactPrompt, 1))
  {
    TrimFixesTrimmed(text);
    assert StartsWithCI(text, SetLanguageToken);
    assert text[13..] == "1";
    IndexOfSepIs("1", 1);
    StoreAfterFollowsParse(users, m, true);
    TokensExclusive(text);
  }

  /** Step 3: `set_contact` with the shared contact stores the phone and shows the main menu under a confirmation. */
  lemma {:induction false} SharingContactShowsMainMenu(users: Users, m: Message, text: string, phone: string)
    requires users == map[7 := Row(1, "")] && text == "set_contact" && phone == "+998901234567"
    requires m == Message(70, 7, text, Some(phone))
    ensures StoreAfter(users, m, true) == map[7 := Row(1, phone)]
    ensures ReplyTo(users, m, true) ==
      Reply(70, [Phrase(1, "phone_number_saved"), Phrase(1, "choose_action")], Markup(MainMenu, 1))
  {
    TrimFixesTrimmed(text);
    assert StartsWithCI(text, SetContactToken);
    NormalizePhoneFixesStored(phone);
    StoreAfterFollowsParse(users, m, true);
    SavedContactGetsConfirmation(users, m);
  }

  /**
    `set_language_x_1` passes the third `_`-separated field, `x`, to `setLanguage`,
    which selects nothing: the table is unchanged and the picker is shown again.
   */
  lemma {:induction false} SecondFieldIsNotTheLanguage(users: Users, m: Message, text: string)
    requires users == map[7 := Row(Unset, "")] && text == "set_language_x_1" && m == Message(70, 7, text, None)
    ensures WriteOf(m) == LanguageWrite("x")
    ensures StoreAfter(users, m, true) == users
    ensures ReplyTo(users, m, true) ==
      Reply(70, [Phrase(DefaultLanguage, "choose_language")], Markup(LanguagePicker, DefaultLanguage))
  {
    TrimFixesTrimmed(text);
    assert StartsWithCI(text, SetLanguageToken);
    assert text[13..] == "x_1";
    IndexOfSepIs("x_1", 1);
    StoreAfterFollowsParse(users, m, true);
  }

  /**
    A row whose language id is outside the supported set reads as unset through
    `getLanguage`, yet the step does not re-check it: the main menu comes in that id.
   */
  lemma {:induction false} StoredUnsupportedLanguageIsUsed(users: Users, m: Message, text: string)
    requires users == map[7 := Row(5, "+1")] && text == "hello" && m == Message(70, 7, text, None)
    ensures LanguageOf(users, 7) == Unset
    ensures ReplyTo(users, m, true) == Reply(70, [Phrase(5, "choose_action")], Markup(MainMenu, 5))
  {
    TrimFixesTrimmed(text);
    TokensExclusive(text);
    assert !StartsWithCI(text, ChooseLanguageToken) && !StartsWithCI(text, ChangePhoneToken) by {
      assert Lower(text[0]) != 'c';
    }
    ReadyUserGetsMainMenu(users, m, true);
    StoreAfterFollowsParse(users, m, true);
  }

  /** `setLanguage(u, 99)`: an unsupported id returns 0 and leaves the table as it was. */
  lemma {:induction false} UnsupportedLanguageChangesNothing(users: Users, token: string)
    requires users == map[7 := Row(1, "+1")] && token == "99"
    ensures ParseLanguageId(token) == Unset
    ensures AfterSetLanguage(users, 7, token) == users
  {
    SetLanguageWritesOnlySupported(users, 7, token);
  }
}
