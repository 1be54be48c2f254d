/**
  The start command of the bot (Commands/StartCommand.php): one step of the
  onboarding conversation. A step reads the incoming text and the user's row,
  makes at most one change to that row, re-reads it and answers with one prompt
  and one keyboard. The database table is a map from user id to row; the reply
  is returned instead of being sent.
 */
module Commands {
  import opened Wrappers
  import opened Language
  import opened Text
  import opened Phone
  import opened Keyboards

  type UserId = int

  /** A row of the user table: `language_id` (0 stands for NULL) and `phone` ('' stands for NULL). */
  datatype Row = Row(languageId: int, phone: string)

  type Users = map<UserId, Row>

  /** The incoming message: chat, sender, text and the phone number of an attached contact. */
  datatype Message = Message(chatId: int, userId: UserId, text: string, contact: Option<string>)

  /**
    The data handed to `Request::sendMessage`: the text is `lines` joined by "\n",
    and the reply markup is the keyboard `Render(markup)`.
   */
  datatype Reply = Reply(chatId: int, lines: seq<Phrase>, markup: Markup)

  /** The change to the user's row a message asks for. */
  datatype Write = NoWrite | LanguageWrite(token: string) | ContactWrite(rawPhone: string)

  const SetLanguageToken: string := "set_language_"
  const SetContactToken: string := "set_contact"
  const ChooseLanguageToken: string := "choose_language"
  const ChangePhoneToken: string := "change_phone_number"

  // ----- The user table -----

  /** `getUser`: the row of `u`, or nothing when there is none. */
  function RowOf(users: Users, u: UserId): Option<Row> {
    if u in users then Some(users[u]) else None
  }

  /** `getLanguage`: the stored language of `u` when it is supported, `Unset` otherwise. */
  function LanguageOf(users: Users, u: UserId): (id: int)
    ensures id == Unset || IsSupported(id)
    ensures id != Unset <==> u in users && IsSupported(users[u].languageId)
    ensures id != Unset ==> id == users[u].languageId
  {
    if u in users && IsSupported(users[u].languageId) then users[u].languageId else Unset
  }

  /** `UPDATE user SET language_id = id WHERE id = u`: a missing row is not created. */
  function StoreLanguage(users: Users, u: UserId, id: int): (after: Users)
    ensures after.Keys == users.Keys
    ensures forall v :: v in users && v != u ==> after[v] == users[v]
    ensures u in users ==> after[u].languageId == id && after[u].phone == users[u].phone
  {
    if u in users then users[u := users[u].(languageId := id)] else users
  }

  /** `UPDATE user SET phone = phone WHERE id = u`: a missing row is not created. */
  function StorePhone(users: Users, u: UserId, phone: string): (after: Users)
    ensures after.Keys == users.Keys
    ensures forall v :: v in users && v != u ==> after[v] == users[v]
    ensures u in users ==> after[u].phone == phone && after[u].languageId == users[u].languageId
  {
    if u in users then users[u := users[u].(phone := phone)] else users
  }

  /** The table after `setLanguage(u, token)`: written only for a supported language. */
  function AfterSetLanguage(users: Users, u: UserId, token: string): Users {
    var id := ParseLanguageId(token);
    if IsSupported(id) then StoreLanguage(users, u, id) else users
  }

  /** The table after `setContact(u, raw)`, when the database reports `writeOk` for the update. */
  function AfterSetContact(users: Users, u: UserId, raw: string, writeOk: bool): Users {
    if writeOk then StorePhone(users, u, NormalizePhone(raw)) else users
  }

  // ----- Reading the command tokens -----

  /** `explode('_', text)` of a `set_language_` text always has a third field: the text after the prefix, up to the next `_`. */
  lemma {:induction false} LanguageField(text: string)
    requires StartsWithCI(text, SetLanguageToken)
    ensures |Split(text)| > 2
    ensures Split(text)[2] == text[13..][..IndexOfSep(text[13..])]
  {
    SetLanguageTokenShape();
    ThirdField(text, SetLanguageToken, 3, 12);
  }

  /** `set_language_` has exactly two separators, after `set` and at its end. */
  lemma {:induction false} SetLanguageTokenShape()
    ensures |SetLanguageToken| == 13 && SetLanguageToken[3] == Sep && SetLanguageToken[12] == Sep
    ensures forall i :: 0 <= i < 12 && i != 3 ==> SetLanguageToken[i] != Sep
  {
  }

  /** A text cannot start with both `set_language_` and `set_contact`, so a step makes at most one write. */
  lemma {:induction false} SetTokensExclusive(text: string)
    ensures !(StartsWithCI(text, SetLanguageToken) && StartsWithCI(text, SetContactToken))
  {
    PrefixesClash(text, SetLanguageToken, SetContactToken, 4);
  }

  /**
    Lines 73-88: the write the trimmed text asks for. `set_language_` is followed
    by the third `_`-separated field; `set_contact` counts only with a contact attached.
   */
  function ParseWrite(text: string, contact: Option<string>): (w: Write)
    ensures w.LanguageWrite? <==> StartsWithCI(text, SetLanguageToken)
    ensures w.LanguageWrite? ==> |text| >= 13 && w.token == text[13..][..IndexOfSep(text[13..])]
    ensures w.ContactWrite? <==> StartsWithCI(text, SetContactToken) && contact.Some?
    ensures w.ContactWrite? ==> w.rawPhone == contact.value
  {
    if StartsWithCI(text, SetLanguageToken) then
      LanguageField(text);
      SetTokensExclusive(text);
      LanguageWrite(Split(text)[2])
    else if StartsWithCI(text, SetContactToken) && contact.Some? then
      ContactWrite(contact.value)
    else
      NoWrite
  }

  // ----- One step, as values -----

  /**
    Lines 90-131: the reply chosen from the re-read row. The first gate that
    matches wins: the language picker (in the default language), the contact
    prompt, then the main menu.
   */
  function Decide(chatId: int, text: string, user: Option<Row>, contactSet: bool): Reply {
    var lang := if user.Some? then user.value.languageId else Unset;
    if lang == Unset || StartsWithCI(text, ChooseLanguageToken) then
      Reply(chatId, [Phrase(DefaultLanguage, "choose_language")], Markup(LanguagePicker, DefaultLanguage))
    else if user.value.phone == "" || StartsWithCI(text, ChangePhoneToken) then
      Reply(chatId, [Phrase(lang, "send_your_contacts")], Markup(ContactPrompt, lang))
    else
      var saved := if contactSet then [Phrase(lang, "phone_number_saved")] else [];
      Reply(chatId, saved + [Phrase(lang, "choose_action")], Markup(MainMenu, lang))
  }

  /** The write message `m` asks for. */
  function WriteOf(m: Message): Write {
    ParseWrite(Trim(m.text), m.contact)
  }

  /** `isset($get_lang_id[2])` of a `set_language_` text: the field passed to `setLanguage`. */
  predicate AsksLanguage(text: string) {
    StartsWithCI(text, SetLanguageToken) && |Split(text)| > 2
  }

  /** A `set_contact` text with a contact attached. */
  predicate AsksContact(text: string, contact: Option<string>) {
    StartsWithCI(text, SetContactToken) && contact.Some?
  }

  /**
    The user table after one step on `m`, when the database reports `writeOk` for a
    phone update: the language update, then the phone update, each under its own test.
   */
  function StoreAfter(users: Users, m: Message, writeOk: bool): Users {
    var text := Trim(m.text);
    var afterLanguage := if AsksLanguage(text) then AfterSetLanguage(users, m.userId, Split(text)[2]) else users;
    if AsksContact(text, m.contact) then AfterSetContact(afterLanguage, m.userId, m.contact.value, writeOk)
    else afterLanguage
  }

  /** `$contactSet`: a phone update was asked for and the database reported success. */
  predicate ContactSaved(m: Message, writeOk: bool) {
    AsksContact(Trim(m.text), m.contact) && writeOk
  }

  /** The reply of one step on `m`. */
  function ReplyTo(users: Users, m: Message, writeOk: bool): Reply {
    Decide(m.chatId, Trim(m.text), RowOf(StoreAfter(users, m, writeOk), m.userId), ContactSaved(m, writeOk))
  }

  // ----- The command itself -----

  class StartCommand {
    /** The user table the command reads and updates. */
    var users: Users

    constructor (users: Users)
      ensures this.users == users
    {
      this.users := users;
    }

    /** `getUser`: the row of `u`, or nothing (the empty array) when there is none. */
    method GetUser(u: UserId) returns (user: Option<Row>)
      ensures user.Some? <==> u in users
      ensures user.Some? ==> user.value == users[u]
    {
      if u in users {
        user := Some(users[u]);
      } else {
        user := None;
      }
    }

    /** `getLanguage`: 0 for a missing row or an unsupported stored id, the stored id otherwise. */
    method GetLanguage(u: UserId) returns (id: int)
      ensures id == LanguageOf(users, u)
    {
      id := Unset;
      if u in users {
        id := users[u].languageId;
        if !IsSupported(id) {
          id := Unset;
        }
      }
    }

    /** `setLanguage`: writes a supported language and returns it; otherwise returns 0 and writes nothing. */
    method SetLanguage(u: UserId, token: string) returns (id: int)
      modifies this
      ensures id == ParseLanguageId(token)
      ensures users == AfterSetLanguage(old(users), u, token)
    {
      id := ParseLanguageId(token);
      if !IsSupported(id) {
        id := Unset;
      } else if u in users {
        users := users[u := users[u].(languageId := id)];
      }
    }

    /**
      `setContact`: normalises the number and writes it; the result is what the
      database reports for the update (`writeOk`), which a missing row does not change.
     */
    method SetContact(u: UserId, rawPhone: string, writeOk: bool) returns (ok: bool)
      modifies this
      ensures ok == writeOk
      ensures users == AfterSetContact(old(users), u, rawPhone, writeOk)
    {
      var phone := NormalizePhone(rawPhone);
      ok := writeOk;
      if ok && u in users {
        users := users[u := users[u].(phone := phone)];
      }
    }

    /** `execute`: one step of the conversation; the database reports `writeOk` for a phone update. */
    method Execute(m: Message, writeOk: bool) returns (reply: Reply)
      modifies this
      ensures users == StoreAfter(old(users), m, writeOk)
      ensures reply == ReplyTo(old(users), m, writeOk)
    {
      var text := Trim(m.text);

      if StartsWithCI(text, SetLanguageToken) {
        var fields := Split(text);
        if |fields| > 2 {
          var ignored := SetLanguage(m.userId, fields[2]);
        }
      }

      var contactSet := false;
      if StartsWithCI(text, SetContactToken) {
        if m.contact.Some? {
          contactSet := SetContact(m.userId, m.contact.value, writeOk);
        }
      }

      var user := GetUser(m.userId);
      assert ReplyTo(old(users), m, writeOk) == Decide(m.chatId, text, user, contactSet);
      var lang := if user.Some? && user.value.languageId != Unset then user.value.languageId else Unset;

      if lang == Unset || StartsWithCI(text, ChooseLanguageToken) {
        return Reply(m.chatId, [Phrase(DefaultLanguage, "choose_language")], Markup(LanguagePicker, DefaultLanguage));
      }

      if user.value.phone == "" || StartsWithCI(text, ChangePhoneToken) {
        return Reply(m.chatId, [Phrase(lang, "send_your_contacts")], Markup(ContactPrompt, lang));
      }

      var lines: seq<Phrase> := [];
      if contactSet {
        lines := lines + [Phrase(lang, "phone_number_saved")];
      }
      assert lines == if contactSet then [Phrase(lang, "phone_number_saved")] else [];
      lines := lines + [Phrase(lang, "choose_action")];
      return Reply(m.chatId, lines, Markup(MainMenu, lang));
    }
  }
}
