/**
  The language registry: the fixed list `$language_ids` of Commands/StartCommand.php
  (1 is Russian, 2 is Uzbek) and the test a `set_language_` token must pass.
 */
module Language {

  /** The supported language ids. */
  const LanguageIds: set<int> := {1, 2}

  /** The language the picker is rendered in before the user has chosen one. */
  const DefaultLanguage: int := 1

  /** The stored and returned value that stands for "no language". */
  const Unset: int := 0

  predicate IsSupported(id: int) {
    id in LanguageIds
  }

  /**
    The language a `set_language_` token selects, or `Unset` when the token names
    no supported language. A token is read strictly: it selects id n exactly when
    it is n's decimal numeral.
   */
  function ParseLanguageId(token: string): (id: int)
    ensures id == Unset || IsSupported(id)
    ensures IsSupported(id) <==> token == "1" || token == "2"
    ensures token == "1" ==> id == 1
    ensures token == "2" ==> id == 2
  {
    if token == "1" then 1 else if token == "2" then 2 else Unset
  }
}
