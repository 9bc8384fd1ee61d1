/** The stored records, one datatype per table (nouns, verbs, adjectives,
    grammar_lessons), with nullable columns as `Option`. */
module Vocab {

  datatype Option<T> = None | Some(value: T)

  /** The JSON `translations` column. The code reads it as a list of strings, and
      the model assumes a list holds strings only; a value that is not a list
      (null, a string, a number, an object) is `NotList`. */
  datatype Translations = TList(items: seq<string>) | NotList

  datatype Noun = Noun(
    id: int,
    article: string,
    word: string,
    translations: Translations,
    definite: Option<string>,
    plural: Option<string>,
    tags: Option<string>,
    level: Option<string>)

  datatype Verb = Verb(
    id: int,
    infinitive: string,
    presens: Option<string>,
    preteritum: Option<string>,
    perfectParticiple: Option<string>,
    translations: Translations,
    group: Option<string>,
    groupDescription: Option<string>,
    tags: Option<string>,
    level: Option<string>)

  datatype Adjective = Adjective(
    id: int,
    base: string,
    neuter: Option<string>,
    plural: Option<string>,
    comparative: Option<string>,
    superlative: Option<string>,
    translations: Translations,
    group: Option<string>,
    groupDescription: Option<string>,
    tags: Option<string>,
    level: Option<string>)

  datatype GrammarLesson = GrammarLesson(
    id: int,
    title: string,
    content: string,
    tags: Option<string>,
    level: Option<string>)

  /** `x if isinstance(x, list) else []`. */
  function TranslationList(t: Translations): seq<string> {
    match t
    case TList(items) => items
    case NotList => []
  }
}
