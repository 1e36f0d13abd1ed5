/**
 * Localisation lookup: the built-in English and Finnish tables, and the lookup that falls
 * back to English for an unknown language and to the key itself for a missing translation.
 */
module Locale {

  type Table = map<string, string>

  const En: Table := map[
    "Search" := "Search",
    "Cancel" := "Cancel",
    "Previous page" := "Previous page",
    "Next page" := "Next page",
    "Search results" := "Search results",
    "No search results" := "No search results",
    "No images matching your query were found." := "No images matching your query were found.",
    "Search query..." := "Search Finna for word...",
    "#introduction-text" := "Find the relevant images from Finna materials provided by Finnish libraries, archives and museums."
  ]

  const Fi: Table := map[
    "Search" := "Hae",
    "Cancel" := "Peruuta",
    "Previous page" := "Edellinen sivu",
    "Next page" := "Seuraava sivu",
    "Search results" := "Hakutulokset",
    "No search results" := "Ei hakutuloksia",
    "No images matching your query were found." := "Hakua vastaavia kuvia ei l\U{00F6}ytynyt.",
    "Search query..." := "Etsi hakusanalla Finnasta...",
    "#introduction-text" := "L\U{00F6}yd\U{00E4} tarvitsemasi kuvat Finnan kuva-aineistoista. K\U{00E4}ytett\U{00E4}viss\U{00E4}si ovat Suomen museoiden, kirjastojen ja arkistojen aarteet!"
  ]

  /** `PicaFinna.locale`: per-language tables. Every lookup falls back to English, so a set
    * of tables has one. */
  type Tables = t: map<string, Table> | "en" in t witness map["en" := map[]]

  const Builtin: Tables := map["en" := En, "fi" := Fi]

  /** The table `lang` selects: its own, or English when the language is unknown. */
  function TableFor(tables: map<string, Table>, lang: string): Table
    requires "en" in tables
  {
    if lang in tables then tables[lang] else tables["en"]
  }

  /** `(locale[lang] || locale['en'])[key] || key` */
  function Localize(tables: map<string, Table>, lang: string, key: string): (r: string)
    requires "en" in tables
    ensures r == key || r in TableFor(tables, lang).Values
  {
    var table := TableFor(tables, lang);
    if key in table && table[key] != "" then table[key] else key
  }

  /** An unknown language reads the English table. */
  lemma UnknownLanguageIsEnglish(tables: map<string, Table>, lang: string, key: string)
    requires "en" in tables && lang !in tables
    ensures Localize(tables, lang, key) == Localize(tables, "en", key)
  {
  }

  /** A key missing from a known language's table is shown as itself, even when English has it:
    * there is no fallback per key. */
  lemma NoFallbackPerKey(tables: map<string, Table>, lang: string, key: string)
    requires "en" in tables && lang in tables && key !in tables[lang]
    ensures Localize(tables, lang, key) == key
  {
  }

  /** A translation is shown whenever the selected table has a non-empty one. */
  lemma TranslationShown(tables: map<string, Table>, lang: string, key: string)
    requires "en" in tables && key in TableFor(tables, lang) && TableFor(tables, lang)[key] != ""
    ensures Localize(tables, lang, key) == TableFor(tables, lang)[key]
  {
  }

  lemma TableExamples()
    ensures Localize(Builtin, "fi", "No search results") == "Ei hakutuloksia"
    ensures Localize(Builtin, "sv", "Search query...") == "Search Finna for word..."
    ensures Localize(Builtin, "fi", "Use image") == "Use image"
  {
  }
}
