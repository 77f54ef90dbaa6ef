/** The bot's localisation table, whose contents are not part of this model.
    It is represented by an uninterpreted lookup `t(key, lang)` (which also
    stands for `TEXTS[lang][key]`) and the per-language category lists; the
    properties that depend on what the table holds take the assumptions below
    as explicit preconditions. */
module Localization {
  import opened Strings

  /** The text keys the handlers look up. */
  datatype Key =
    | LangPrompt | LangRu | LangUz | LangEn
    | ConsentText | ConsentAgree
    | AskName | InvalidName | AskPhone | InvalidPhone
    | ChooseCategory | AskText | TextTooShort
    | AttachmentsHint | TooManyAttachments | BtnDone | BtnSkip
    | ReviewTitle | ReviewFields | BtnEdit | BtnSend
    | EditWhat | ReviewBack | EditName | EditPhone | EditCategory | EditText | EditAttachments
    | CardStatusNew | CardStatusWork | CardStatusClosed
    | BitrixError | Submitted | AfterSubmitPrompt | BtnNewRequest
    | AdminNoAccess | WhereAmI | StatsHeader | StatsLine | ExportEmpty | ExportReady

  /** `t(key, lang)` and `CATEGORIES_BY_LANG`. */
  datatype Locale = Locale(t: (Key, string) -> string, categories: map<string, seq<string>>)

  /** The three interface languages the language step accepts. */
  const Languages: seq<string> := ["RU", "UZ", "EN"]

  predicate IsLanguage(lang: string) {
    lang == "RU" || lang == "UZ" || lang == "EN"
  }

  /** `CATEGORIES_BY_LANG.get(lang, [])`. */
  function CategoriesOf(loc: Locale, lang: string): (cats: seq<string>)
    ensures lang !in loc.categories ==> cats == []
    ensures lang in loc.categories ==> cats == loc.categories[lang]
  {
    if lang in loc.categories then loc.categories[lang] else []
  }

  /** A label the user can send back by pressing its button: `strip()` leaves it as it is. */
  predicate PressableLabel(s: string) {
    Stripped(s)
  }

  /** The localised `key` texts of the three languages, as the handlers' `F.text.in_` sets. */
  function LabelSet(loc: Locale, key: Key): set<string> {
    {loc.t(key, "RU"), loc.t(key, "UZ"), loc.t(key, "EN")}
  }

  /** The five edit-menu labels of `lang` differ from one another. */
  predicate EditLabelsDistinct(loc: Locale, lang: string) {
    var n, p, c, x, a := loc.t(EditName, lang), loc.t(EditPhone, lang), loc.t(EditCategory, lang),
                         loc.t(EditText, lang), loc.t(EditAttachments, lang);
    n != p && n != c && n != x && n != a && p != c && p != x && p != a && c != x && c != a && x != a
  }

  /** The three status texts of the Russian table differ from one another. */
  predicate RussianStatusesDistinct(loc: Locale) {
    var n, w, c := loc.t(CardStatusNew, "RU"), loc.t(CardStatusWork, "RU"), loc.t(CardStatusClosed, "RU");
    n != w && n != c && w != c
  }
}
