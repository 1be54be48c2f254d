/**
  The four reply keyboards of the start command (`getKeyboard`,
  `getLanguageKeyboard`, `getContactKeyboard`, `getOthersKeyboard`). A label is
  the translation `self::t(lang, key)`, which is not part of this model, so it is
  kept as the pair of language and key.
 */
module Keyboards {

  /** `self::t(lang, key)`: the text of `key` in language `lang`. */
  datatype Phrase = Phrase(lang: int, key: string)

  /** A keyboard button; `requestContact` is `setRequestContact(true)`. */
  datatype Button = Button(text: Phrase, requestContact: bool)

  /** Rows of buttons and the three layout flags a keyboard is sent with. */
  datatype Keyboard = Keyboard(rows: seq<seq<Button>>, resize: bool, oneTime: bool, selective: bool)

  /** The number of buttons in each row. */
  function RowLengths(rows: seq<seq<Button>>): seq<nat> {
    if rows == [] then [] else [|rows[0]|] + RowLengths(rows[1..])
  }

  /** The keys of all labels, row by row, left to right. */
  function LabelKeys(rows: seq<seq<Button>>): seq<string> {
    if rows == [] then [] else KeysOfRow(rows[0]) + LabelKeys(rows[1..])
  }

  function KeysOfRow(row: seq<Button>): seq<string> {
    if row == [] then [] else [row[0].text.key] + KeysOfRow(row[1..])
  }

  /** `setResizeKeyboard(true)->setOneTimeKeyboard(false)->setSelective(false)`. */
  predicate StandardFlags(k: Keyboard) {
    k.resize && !k.oneTime && !k.selective
  }

  /** Every label of `k` is rendered in `lang`. */
  predicate RenderedIn(k: Keyboard, lang: int) {
    forall i, j :: 0 <= i < |k.rows| && 0 <= j < |k.rows[i]| ==> k.rows[i][j].text.lang == lang
  }

  /** The number of buttons of `k` that ask the client for the user's contact. */
  function ContactRequests(rows: seq<seq<Button>>): nat {
    if rows == [] then 0 else RequestsInRow(rows[0]) + ContactRequests(rows[1..])
  }

  function RequestsInRow(row: seq<Button>): nat {
    if row == [] then 0 else (if row[0].requestContact then 1 else 0) + RequestsInRow(row[1..])
  }

  /** A plain button labelled with `key` in `lang`. */
  function Plain(lang: int, key: string): Button {
    Button(Phrase(lang, key), false)
  }

  /** A keyboard with the standard flags. */
  function Standard(rows: seq<seq<Button>>): Keyboard {
    Keyboard(rows, true, false, false)
  }

  /** What one row contributes to the row lengths, the keys and the contact requests. */
  lemma {:induction false} RowFacts(row: seq<Button>, rest: seq<seq<Button>>)
    ensures RowLengths([row] + rest) == [|row|] + RowLengths(rest)
    ensures LabelKeys([row] + rest) == KeysOfRow(row) + LabelKeys(rest)
    ensures ContactRequests([row] + rest) == RequestsInRow(row) + ContactRequests(rest)
  {
    assert ([row] + rest)[1..] == rest;
  }

  /** The keys and contact requests of a row of two plain buttons. */
  lemma {:induction false} PairFacts(lang: int, a: string, b: string)
    ensures KeysOfRow([Plain(lang, a), Plain(lang, b)]) == [a, b]
    ensures RequestsInRow([Plain(lang, a), Plain(lang, b)]) == 0
  {
    var row := [Plain(lang, a), Plain(lang, b)];
    assert row[1..] == [Plain(lang, b)];
    SingleFacts(Plain(lang, b));
  }

  /** The keys and contact requests of a row of one button. */
  lemma {:induction false} SingleFacts(b: Button)
    ensures KeysOfRow([b]) == [b.text.key]
    ensures RequestsInRow([b]) == if b.requestContact then 1 else 0
  {
    assert [b][1..] == [];
  }

  /** `getKeyboard`: the main menu. */
  function MainKeyboard(lang: int): (k: Keyboard)
    ensures RowLengths(k.rows) == [2, 2]
    ensures LabelKeys(k.rows) == ["button_products", "button_cart", "button_about", "button_others"]
    ensures StandardFlags(k) && RenderedIn(k, lang) && ContactRequests(k.rows) == 0
  {
    var top := [Plain(lang, "button_products"), Plain(lang, "button_cart")];
    var bottom := [Plain(lang, "button_about"), Plain(lang, "button_others")];
    PairFacts(lang, "button_products", "button_cart");
    PairFacts(lang, "button_about", "button_others");
    RowFacts(bottom, []);
    RowFacts(top, [bottom]);
    Standard([top, bottom])
  }

  /** `getLanguageKeyboard`: the language picker. */
  function LanguageKeyboard(lang: int): (k: Keyboard)
    ensures RowLengths(k.rows) == [2]
    ensures LabelKeys(k.rows) == ["set_uzbek", "set_russian"]
    ensures StandardFlags(k) && RenderedIn(k, lang) && ContactRequests(k.rows) == 0
  {
    var only := [Plain(lang, "set_uzbek"), Plain(lang, "set_russian")];
    PairFacts(lang, "set_uzbek", "set_russian");
    RowFacts(only, []);
    Standard([only])
  }

  /** `getContactKeyboard`: one button that asks the client for the user's contact. */
  function ContactKeyboard(lang: int): (k: Keyboard)
    ensures RowLengths(k.rows) == [1]
    ensures LabelKeys(k.rows) == ["send_my_number"]
    ensures StandardFlags(k) && RenderedIn(k, lang) && ContactRequests(k.rows) == 1
  {
    var send := Button(Phrase(lang, "send_my_number"), true);
    SingleFacts(send);
    RowFacts([send], []);
    Standard([[send]])
  }

  /** `getOthersKeyboard`: the secondary menu. */
  function OthersKeyboard(lang: int): (k: Keyboard)
    ensures RowLengths(k.rows) == [2, 2, 1]
    ensures LabelKeys(k.rows) == ["button_change_language", "button_change_phone",
                                  "button_news", "button_view_contacts", "button_main_page"]
    ensures StandardFlags(k) && RenderedIn(k, lang) && ContactRequests(k.rows) == 0
  {
    var first := [Plain(lang, "button_change_language"), Plain(lang, "button_change_phone")];
    var second := [Plain(lang, "button_news"), Plain(lang, "button_view_contacts")];
    var last := Plain(lang, "button_main_page");
    PairFacts(lang, "button_change_language", "button_change_phone");
    PairFacts(lang, "button_news", "button_view_contacts");
    SingleFacts(last);
    RowFacts([last], []);
    RowFacts(second, [[last]]);
    RowFacts(first, [second, [last]]);
    Standard([first, second, [last]])
  }

  /** The four keyboards the command can attach to a reply. */
  datatype Menu = MainMenu | LanguagePicker | ContactPrompt | OthersMenu

  /** A keyboard named by its menu and the language of its labels. */
  datatype Markup = Markup(menu: Menu, lang: int)

  /** The keyboard `markup` stands for. */
  function Render(markup: Markup): Keyboard {
    match markup.menu
    case MainMenu => MainKeyboard(markup.lang)
    case LanguagePicker => LanguageKeyboard(markup.lang)
    case ContactPrompt => ContactKeyboard(markup.lang)
    case OthersMenu => OthersKeyboard(markup.lang)
  }

  /** Every keyboard has the standard flags and labels in its own language; only the contact prompt asks for the contact. */
  lemma {:induction false} RenderFacts(markup: Markup)
    ensures StandardFlags(Render(markup)) && RenderedIn(Render(markup), markup.lang)
    ensures ContactRequests(Render(markup).rows) == if markup.menu == ContactPrompt then 1 else 0
  {
  }

  /** Different menus give different keyboards, so a keyboard names its menu. */
  lemma {:induction false} RenderDistinguishesMenus(a: Markup, b: Markup)
    requires a.menu != b.menu
    ensures Render(a) != Render(b)
  {
    var ka, kb := Render(a), Render(b);
    assert RowLengths(ka.rows) != RowLengths(kb.rows) || ContactRequests(ka.rows) != ContactRequests(kb.rows);
  }
}
