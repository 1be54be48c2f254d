# StartCommand onboarding model

A Dafny model of the `/start` command of a Telegram shop bot
(`Commands/StartCommand.php`). Each message the user sends to the command runs
one step of onboarding:

1. The text is trimmed.
2. A text starting with `set_language_`, ignoring case, may store a language.
3. A text starting with `set_contact`, ignoring case, with a shared contact may store a phone number.
4. The user's row is read again, and the reply is chosen by three gates, in order:
   - the language picker, when no language is set or the text starts with `choose_language`, ignoring case;
   - the contact prompt, when no phone is set or the text starts with `change_phone_number`, ignoring case;
   - otherwise the main menu, headed by "phone number saved" when this step stored the phone.

The model is split by concern:

- `language.dfy`: the supported language ids {1, 2}, the default language 1, and the sentinel 0.
- `text.dfy`: the PHP string operations the command relies on:
  - `trim` with its default character list;
  - `stripos(...) === 0` as an ASCII case-insensitive prefix test;
  - `explode('_')`, with `implode('_')` (`Text.Join`) as its inverse for the round-trip lemmas.
- `phone.dfy`: the phone normalisation of `setContact`.
- `keyboards.dfy`: the four keyboard builders, as values. Translations are `Phrase(lang, key)`.
- `commands.dfy`:
  - the user table, `map<UserId, Row>`, where a missing key is a missing row;
  - the command as the class `StartCommand`, whose `users` field its methods update;
  - the value-level functions that specify those methods.
- `onboarding.dfy`: what one step promises, as lemmas over the functions that specify `Execute`.
- `phone_examples.dfy` and `onboarding_examples.dfy`: concrete inputs, including a whole onboarding conversation.

A language id of 0 stands for an empty or NULL `language_id` column. The empty
string stands for an empty or NULL `phone` column.

Two behaviours of the code worth noting, since a reading of the token names alone suggests otherwise:

- `explode('_', "set_language_x_1")[2]` is `"x"`, not `"1"`. That text therefore
  selects no language (`OnboardingExamples.SecondFieldIsNotTheLanguage`). Only a
  third field that is exactly `1` or `2` selects one (`set_language_1`, or
  `set_language_2_…`).
- The normalisation keeps every `+` of the number, not only a leading one. `"99+8"`
  is stored as `"+99+8"` (`PhoneExamples.NormalizePhoneInnerPlusExample`).

## Model

| member | source | states |
|---|---|---|
| Language.ParseLanguageId | Commands/StartCommand.php:168-170 | the id `setLanguage` writes: 0 or a supported id; supported exactly for the tokens `1` and `2`, which give ids 1 and 2 |
| Text.Trim | Commands/StartCommand.php:70 | defines PHP's `trim` with its default character list; characterised by `Text.TrimSpec` and `Text.TrimIdempotent` |
| Text.StartsWithCI | Commands/StartCommand.php:74-107 | defines `stripos($text, $token) === 0` (lines 74, 83, 96, 107): the token is no longer than the text and matches its start letter by letter after ASCII lower-casing; used by `Commands.ParseWrite` and `Commands.Decide`, and related by `Text.PrefixesClash` and `Text.StartsWithCIDrop` |
| Text.TrimLeftSpec | Commands/StartCommand.php:70 | left trim drops a prefix of trim characters and stops at a non-trim character |
| Text.TrimRightSpec | Commands/StartCommand.php:70 | right trim drops a suffix of trim characters and stops at a non-trim character |
| Text.TrimSpec | Commands/StartCommand.php:70 | `trim` returns a slice of its input; everything outside the slice is a trim character; the slice neither begins nor ends with one |
| Text.TrimFixesTrimmed | Commands/StartCommand.php:70 | a text that neither begins nor ends with a trim character is left as it is |
| Text.TrimIdempotent | Commands/StartCommand.php:70 | trimming twice is trimming once |
| Text.PrefixesClash | Commands/StartCommand.php:74-107 | two tokens that differ, ignoring case, at a shared position cannot both be case-insensitive prefixes of one text |
| Text.LowerOfNonLetter | Commands/StartCommand.php:74 | case-insensitive comparison against a non-letter is plain equality |
| Text.IndexOfSep | Commands/StartCommand.php:75 | the position of the first `_`, or the length when there is none |
| Text.IndexOfSepIs | Commands/StartCommand.php:75 | any position with a `_` there and none before it is the first `_` |
| Text.StartsWithCIDrop | Commands/StartCommand.php:74-75 | a case-insensitive prefix match survives dropping the same leading characters from both sides |
| Text.SepIndexCI | Commands/StartCommand.php:74-75 | a text that starts, ignoring case, with a token has its first `_` where the token has it |
| Text.SplitPastField | Commands/StartCommand.php:74-75 | past a case-insensitive prefix whose first `_` is at `k`, the fields after the first are the fields of the text after position `k` |
| Text.ThirdField | Commands/StartCommand.php:74-76 | a text starting, ignoring case, with a prefix holding exactly two `_` has a third field: what follows the prefix up to the next `_` |
| Text.Split | Commands/StartCommand.php:75 | defines `explode('_', $text)`: the text up to the first `_`, then the fields of the rest; characterised by `Text.SplitFields`, `Text.SplitHead`, `Text.SplitTail` and the round trips `Text.JoinSplit` and `Text.SplitJoin` |
| Text.SplitFields | Commands/StartCommand.php:75 | `explode('_')` returns at least one field, and no field contains `_` |
| Text.SplitHead | Commands/StartCommand.php:75 | the first field is the text up to the first `_` |
| Text.SplitTail | Commands/StartCommand.php:75 | the remaining fields are the fields of the text after the first `_` |
| Text.JoinSplit | Commands/StartCommand.php:75 | joining the fields with `_` gives back the text |
| Text.SplitJoin | Commands/StartCommand.php:75 | splitting a join of `_`-free fields gives back the fields |
| Text.NoSepIndex | Commands/StartCommand.php:75 | a text without `_` has its first `_` at its length |
| Text.IndexOfSepAppend | Commands/StartCommand.php:75 | the first `_` of a concatenation whose left part has none is found in the right part |
| Phone.KeepPhoneChars | Commands/StartCommand.php:183 | the filter keeps only digits and `+` and never lengthens the number |
| Phone.NormalizePhone | Commands/StartCommand.php:183-186 | the stored number is non-empty, starts with `+` and holds only digits and `+`; a `+` is added exactly when the filtered number does not already start with one |
| Phone.Digits | Commands/StartCommand.php:183 | the digits of a text hold only digits (the measure the normalisation lemmas compare) |
| Phone.KeepPhoneCharsAppend | Commands/StartCommand.php:183 | the filter distributes over concatenation |
| Phone.KeepPhoneCharsFixesPhoneStrings | Commands/StartCommand.php:183 | a text of digits and `+` passes the filter unchanged |
| Phone.KeepPhoneCharsDropsNoise | Commands/StartCommand.php:183 | text the filter drops entirely, on either side of a number of digits and `+`, leaves just that number |
| Phone.KeepPhoneCharsSingle | Commands/StartCommand.php:183 | a single character is kept exactly when it is a digit or `+` |
| Phone.KeepPhoneCharsIdempotent | Commands/StartCommand.php:183 | filtering twice is filtering once |
| Phone.KeepPhoneCharsKeepsDigits | Commands/StartCommand.php:183 | the filter keeps every digit, in order |
| Phone.DigitsAppend | Commands/StartCommand.php:183 | the digits of a concatenation are the concatenated digits |
| Phone.NormalizePhoneIdempotent | Commands/StartCommand.php:183-186 | normalising a normalised number changes nothing |
| Phone.NormalizePhoneKeepsDigits | Commands/StartCommand.php:183-186 | normalising keeps every digit, in order, and gives a text the filter keeps whole |
| Phone.NormalizePhoneFixesStored | Commands/StartCommand.php:183-186 | a number already starting with `+` and holding only digits and `+` is stored as it is |
| PhoneExamples.NormalizePhoneBareExample | Commands/StartCommand.php:183-186 | `1234567890` is stored as `+1234567890` |
| PhoneExamples.NormalizePhoneInnerPlusExample | Commands/StartCommand.php:183-186 | `99+8` is stored as `+99+8`: an inner `+` survives |
| PhoneExamples.NormalizePhoneStoredExample | Commands/StartCommand.php:183-186 | `+998901234567` is stored unchanged, and an empty number becomes `+` |
| PhoneExamples.NormalizePhoneFormattedExample | Commands/StartCommand.php:183-186 | `+1 (234) 567-8900` is stored as `+12345678900` |
| Keyboards.RowFacts | Commands/StartCommand.php:197-200 | prepending a row adds its length, its label keys and its contact requests to the keyboard's |
| Keyboards.PairFacts | Commands/StartCommand.php:198 | a row of two plain buttons has length 2, those two keys, and no contact request |
| Keyboards.SingleFacts | Commands/StartCommand.php:225 | a row of one button has length 1, that key, and a contact request exactly when the button asks for one |
| Keyboards.MainKeyboard | Commands/StartCommand.php:195-208 | two rows of two buttons: products, cart, about, others; resizable, not one-time, not selective; all labels in the given language; no contact request |
| Keyboards.LanguageKeyboard | Commands/StartCommand.php:210-220 | one row holding `set_uzbek` and `set_russian`, with the same flags and language, and no contact request |
| Keyboards.ContactKeyboard | Commands/StartCommand.php:222-231 | one row holding the single `send_my_number` button, which asks for the contact, with the same flags and language |
| Keyboards.OthersKeyboard | Commands/StartCommand.php:233-246 | rows of 2, 2 and 1 buttons: change language, change phone, news, contacts, main page; same flags and language; no contact request |
| Keyboards.Render | Commands/StartCommand.php:195-246 | defines the keyboard a reply's markup names: the main menu, the language picker, the contact prompt or the others menu, built in the markup's language; characterised by `Keyboards.RenderFacts` and `Keyboards.RenderDistinguishesMenus` |
| Keyboards.RenderFacts | Commands/StartCommand.php:195-246 | every keyboard has the standard flags and labels in its language; only the contact prompt asks for the contact |
| Keyboards.RenderDistinguishesMenus | Commands/StartCommand.php:195-246 | different menus give different keyboards |
| Commands.RowOf | Commands/StartCommand.php:135-145 | defines the result of `getUser`: the user's row, or none (the empty array) when there is none; `Commands.StartCommand.GetUser` is proved to return it |
| Commands.LanguageOf | Commands/StartCommand.php:148-162 | `getLanguage` gives 0 or a supported id; non-zero exactly when the row exists and holds a supported id, and then that id |
| Commands.StoreLanguage | Commands/StartCommand.php:172-175 | the update sets the language of an existing row only; every other row and the phone are unchanged; no row is created |
| Commands.StorePhone | Commands/StartCommand.php:187-190 | the update sets the phone of an existing row only; every other row and the language are unchanged; no row is created |
| Commands.AfterSetLanguage | Commands/StartCommand.php:165-178 | defines the table after `setLanguage(u, token)`: the parsed id written to an existing row when it is supported, the table unchanged otherwise; characterised by `Onboarding.SetLanguageWritesOnlySupported` and `Onboarding.SetLanguageThenGetLanguage` |
| Commands.AfterSetContact | Commands/StartCommand.php:181-193 | defines the table after `setContact(u, raw)`: the normalised number written to an existing row when the database reports success, the table unchanged otherwise; characterised by `Onboarding.SetContactStoresNormalised` |
| Commands.LanguageField | Commands/StartCommand.php:74-76 | a `set_language_` text always has a third `_` field, namely the text after the prefix up to the next `_` |
| Commands.SetTokensExclusive | Commands/StartCommand.php:74-83 | no text starts with both `set_language_` and `set_contact` |
| Commands.ParseWrite | Commands/StartCommand.php:73-88 | a language write exactly for a `set_language_` text, with the third field as token; a contact write exactly for a `set_contact` text carrying a contact, with its number |
| Commands.WriteOf | Commands/StartCommand.php:70-88 | defines the write a message asks for: `Commands.ParseWrite` of the trimmed text and the attached contact |
| Commands.AsksLanguage | Commands/StartCommand.php:74-76 | defines the guard of the `setLanguage` call: the text starts with `set_language_`, ignoring case, and its `explode('_')` has a third field; `Commands.LanguageField` shows the second part always holds |
| Commands.AsksContact | Commands/StartCommand.php:83-84 | defines the guard of the `setContact` call: the text starts with `set_contact`, ignoring case, and a contact is attached |
| Commands.ContactSaved | Commands/StartCommand.php:82-86 | defines `$contactSet`: a `set_contact` text with a contact whose write the database reported done; characterised by `Onboarding.StoreAfterFollowsParse` and `Onboarding.SavedLineIffContactSaved` |
| Commands.StoreAfter | Commands/StartCommand.php:70-88 | defines the table after one step: the language update of a `set_language_` text with a third field, then the phone update of a `set_contact` text with a contact, each under its own test as the code has them; characterised by `Onboarding.StoreAfterFollowsParse` and `Onboarding.StepWritesOneField` |
| Commands.Decide | Commands/StartCommand.php:90-131 | defines the reply chosen from the re-read row: the picker in language 1 when the language is 0 or the text starts with `choose_language`, else the contact prompt when the phone is empty or the text starts with `change_phone_number`, else the main menu with `phone_number_saved` first when a contact was saved; characterised by the `Onboarding` gate lemmas |
| Commands.ReplyTo | Commands/StartCommand.php:65-132 | defines the reply of one step: `Commands.Decide` on the trimmed text and the row after `Commands.StoreAfter`; characterised by `Onboarding.UnknownUserGetsPicker` through `Onboarding.ReplyMarkup` |
| Commands.StartCommand.GetUser | Commands/StartCommand.php:135-145 | a row exactly when the user has one, and then that row |
| Commands.StartCommand.GetLanguage | Commands/StartCommand.php:148-162 | the result is `getLanguage` of the table |
| Commands.StartCommand.SetLanguage | Commands/StartCommand.php:165-178 | returns the parsed id, or 0 for an unsupported token; the table is written exactly for a supported id |
| Commands.StartCommand.SetContact | Commands/StartCommand.php:181-193 | returns what the database reports; on success the normalised number is stored in the user's row |
| Commands.StartCommand.Execute | Commands/StartCommand.php:65-132 | the table after the step and the reply are those of the step function, which the `Onboarding` lemmas characterise |
| Onboarding.TokensExclusive | Commands/StartCommand.php:74-107 | the four command tokens exclude one another as prefixes |
| Onboarding.StoreAfterFollowsParse | Commands/StartCommand.php:70-88 | the table after a step is exactly the write the parsed command asks for; `$contactSet` holds exactly for a contact write that succeeded |
| Onboarding.StepWritesOneField | Commands/StartCommand.php:73-88 | a step creates and removes no rows, leaves every other user's row alone, and changes at most one field of the sender's row |
| Onboarding.SetLanguageWritesOnlySupported | Commands/StartCommand.php:165-178 | the write happens exactly for a supported token and writes that language alone; otherwise 0 is returned and nothing changes |
| Onboarding.SetLanguageThenGetLanguage | Commands/StartCommand.php:148-178 | a language written by `setLanguage` is read back by `getLanguage` |
| Onboarding.SetContactStoresNormalised | Commands/StartCommand.php:181-193 | a successful `setContact` stores a non-empty number of digits and `+`, starting with `+`, that keeps every digit of the contact |
| Onboarding.UnknownUserGetsPicker | Commands/StartCommand.php:90-104 | a user without a row gets the picker in the default language, and the table does not change |
| Onboarding.UnsetLanguageGetsPicker | Commands/StartCommand.php:90-104 | a user without a language gets the picker unless the message selects a supported language, even when the phone was stored in this step |
| Onboarding.SelectingLanguageLeavesPicker | Commands/StartCommand.php:73-131 | a user without a language whose message selects a supported language gets that language in the row, phone kept, and then the contact prompt when the phone is empty or the main menu with `choose_action` otherwise, in that language |
| Onboarding.ChooseLanguageGetsPicker | Commands/StartCommand.php:96-104 | a text starting with `choose_language`, ignoring case, always gets the picker in the default language and writes nothing |
| Onboarding.MissingPhoneGetsContactPrompt | Commands/StartCommand.php:106-115 | a user with a language and no phone who did not just store one is asked for the contact, in the row's language |
| Onboarding.ChangePhoneGetsContactPrompt | Commands/StartCommand.php:106-115 | a text starting with `change_phone_number`, ignoring case, from a user with a language gets the contact prompt in that language and writes nothing |
| Onboarding.ReadyUserGetsMainMenu | Commands/StartCommand.php:117-131 | a user with a language and a phone, not asking for the picker or the prompt, gets the main menu with `choose_action` alone unless a phone was just stored |
| Onboarding.SavedContactGetsConfirmation | Commands/StartCommand.php:117-131 | a stored contact from a user with a language gets `phone_number_saved` then `choose_action`, with the main menu |
| Onboarding.SavedLineIffContactSaved | Commands/StartCommand.php:117-120 | `phone_number_saved` appears only on a main-menu reply to a step that stored a phone, and always appears there once the user has a language |
| Onboarding.ReplyMarkup | Commands/StartCommand.php:96-131 | every reply goes to the sender's chat with one of the three onboarding keyboards; the picker is in the default language, the others in a set language |
| OnboardingExamples.FirstStartShowsPicker | Commands/StartCommand.php:90-104 | a new user's `/start` gets the picker and writes nothing |
| OnboardingExamples.PickingLanguageAsksForContact | Commands/StartCommand.php:73-115 | `set_language_1` stores language 1 and gets the contact prompt in language 1 |
| OnboardingExamples.SharingContactShowsMainMenu | Commands/StartCommand.php:81-131 | `set_contact` with `+998901234567` stores it and gets the main menu under `phone_number_saved` |
| OnboardingExamples.SecondFieldIsNotTheLanguage | Commands/StartCommand.php:74-77 | `set_language_x_1` passes `x` to `setLanguage`, so nothing is written and the picker comes back |
| OnboardingExamples.StoredUnsupportedLanguageIsUsed | Commands/StartCommand.php:90-131 | a stored id outside {1, 2} reads as 0 through `getLanguage`, yet `execute` replies in it |
| OnboardingExamples.UnsupportedLanguageChangesNothing | Commands/StartCommand.php:165-178 | `setLanguage(u, "99")` returns 0 and writes nothing |

## Left out

- Sending the reply (`Request::sendMessage`) is left out. `Execute` returns the chat id, the lines and the keyboard as a `Reply`.
- The translation function `t` is not part of this model. A label or line is the pair of its language and key (`Phrase`). The lines of a reply stand for the `"\n"`-joined text.
- The keyboard of a reply is named by its menu and language (`Markup`); `Keyboards.Render` builds it.
- The database is an in-memory map. Connection failures and exceptions from PDO are left out.
- Commands.StartCommand.SetContact: the result of the `UPDATE` is the caller's `writeOk`, since the driver cannot be modelled. The number is written exactly when `writeOk` holds and the user has a row.
- Commands.StartCommand.SetLanguage: the `UPDATE` is taken to succeed, because the source ignores its result.
- Commands.StartCommand.SetLanguage: the returned id is an integer. PHP returns the token string itself for a supported token, and no caller uses the value.
- Language.ParseLanguageId: only the exact tokens `1` and `2` are supported. PHP's loose `in_array` would also accept other numeric spellings, such as `01` or `1.0`; the database would store those as the number they spell.
- `getText(true)`, which strips the `/start` command from the text, is not part of this model. A message's text is the text after that stripping.
- Letters are case-folded in ASCII only, as `stripos` does with its single-byte case table.
- The class metadata (name, description, usage, version, private-only flag) describes the command to the framework and carries no behaviour.
- Keyboards.MainKeyboard: the default argument of `getKeyboard($lang_id = 0)` is not modelled; the only caller passes the language.
- `getOthersKeyboard` is modelled (`Keyboards.OthersKeyboard`), but `execute` never attaches it.
