# norsk-drill, modelled in Dafny

norsk-drill is a small web application for drilling Norwegian vocabulary. It has three
word tables (nouns with their article, verbs with their tense forms, adjectives with
their inflected forms), each word carrying a list of translations. This project models
its core and proves properties of the model:

- **The store** (`crud.dfy`, module `Crud`): the CRUD helpers, as a class `Store`
  whose fields are the four tables held in row order and the next id of each.
  Reads are functions and writes are methods. `Store.Valid()` is the invariant every
  write keeps: ids increase along each table and stay below the next id, and no two
  rows share a natural key. The natural keys are (article, word) for nouns, the
  infinitive for verbs and the base form for adjectives.
- **Practice** (`practice.dfy`, module `Practice`):
  - the random-card endpoints and their `exclude_ids` parsing;
  - the three answer checks, written as the handlers are: defaults first, then each
    answered field overwritten;
  - ghost verdict functions that state the grading policy each check is proved against.
- **Admin imports** (`admin.dfy`, module `Admin`):
  - parsing of the one-line-per-word text format (`word – translation, translation`)
    and of CSV rows, as pure functions;
  - the import loops as methods on the store. They are proved to add exactly one row
    for each parsed draft whose key is new, in order, and to count as the handlers do.
  - round-trip lemmas showing that lines and rows written from a word parse back to it.
- **Search** (`search.dfy`, module `Search`): the query's search key, the per-row
  `matched_translation` flag (a loop with `break`, proved equal to an `exists`
  predicate), and the assembly of the three result lists.
- **Python strings** (`text.dfy`, module `Text`) and **records** (`vocab.dfy`, module
  `Vocab`): the parts of `str` the handlers use (`lower`, `strip`, `split(sep)`,
  `split(None, 1)`, `isdigit`, `int`, `in`), with their algebra, and one datatype per table.

Grading is modelled as the code grades, which is **lenient**. A field left out of the
request body, or holding only white space, is not graded and stays correct. A verb or
adjective form with nothing stored is never graded:

- `Practice.BlankBodyIsAllCorrect` proves that a blank body is all correct;
- `Practice.UnsetFormIsNeverWrong` proves that a verb or adjective form with nothing stored is never wrong.

Each import handler interleaves parsing a line with calling `create_*`. Parsing never
reads the store, so the model parses every line or row first (`Admin.Parsed`) and then
hands the drafts to the store in the same order (`Admin.AddNouns` and its siblings).
The calls to the store, their order and the counters are the same as in the handlers.

Two properties of the source come out of the proofs:

- The text imports test for an en-dash (U+2013) before they choose between splitting on
  an en-dash and falling back to a hyphen. The hyphen branch is therefore never taken,
  and a line whose only separator is a hyphen is skipped (`Admin.DashlessLineSkipped`).
- The text imports count every accepted line, including duplicates the store refuses.
  The CSV imports count stored rows in `added` and accepted rows the store refused as
  duplicates in `skipped`; rows the parser rejects are counted nowhere.

## Model

| member | source | states |
|---|---|---|
| Crud.TagMatches | app/crud.py:19-20 | the tag filter: an absent or empty tag keeps every row; otherwise a row is kept exactly when its tags contain the tag as a substring, so a row tagged exactly with the tag is kept |
| Crud.NotExcluded | app/crud.py:36-37 | the exclude filter: a row is kept exactly when there is no exclude list or its id is not in it |
| Crud.Store.GetNoun | app/crud.py:10-13 | the noun with the given id, and `None` exactly when no noun has that id |
| Crud.Store.GetAllNouns | app/crud.py:16-22 | exactly the nouns whose tags contain the tag; no tag or an empty tag keeps every noun |
| Crud.Store.GetRandomNoun | app/crud.py:25-42 | some noun that passes the tag filter and is not excluded, and `None` exactly when no noun passes both |
| Crud.Store.FindNounByWord | app/crud.py:45-53 | a noun is found exactly when the (article, word) key is stored, and it is the only noun with that key |
| Crud.Store.CreateNoun | app/crud.py:56-75 | refuses exactly a duplicate (article, word) and then changes nothing; otherwise appends one noun with the given fields and an id no other noun has; the store stays valid and the other tables are untouched |
| Crud.Store.DeleteNoun | app/crud.py:78-85 | removes exactly the noun with the id and reports whether there was one; the store stays valid |
| Crud.Store.GetVerb | app/crud.py:89-92 | the verb with the given id, and `None` exactly when there is none |
| Crud.Store.GetAllVerbs | app/crud.py:95-101 | exactly the verbs whose tags contain the tag |
| Crud.Store.GetRandomVerb | app/crud.py:104-121 | some verb that passes both filters, and `None` exactly when none does |
| Crud.Store.FindVerbByInfinitive | app/crud.py:124-129 | found exactly when the infinitive is stored, and unique |
| Crud.Store.CreateVerb | app/crud.py:132-153 | refuses exactly a duplicate infinitive; otherwise appends one verb with the given fields and a fresh id; validity kept |
| Crud.Store.DeleteVerb | app/crud.py:156-163 | removes exactly the verb with the id and reports whether there was one |
| Crud.Store.GetAdjective | app/crud.py:167-170 | the adjective with the given id, and `None` exactly when there is none |
| Crud.Store.GetAllAdjectives | app/crud.py:173-179 | exactly the adjectives whose tags contain the tag |
| Crud.Store.GetRandomAdjective | app/crud.py:182-199 | some adjective that passes both filters, and `None` exactly when none does |
| Crud.Store.FindAdjectiveByBase | app/crud.py:202-207 | found exactly when the base form is stored, and unique |
| Crud.Store.CreateAdjective | app/crud.py:210-232 | refuses exactly a duplicate base form; otherwise appends one adjective with the given fields and a fresh id; validity kept |
| Crud.Store.DeleteAdjective | app/crud.py:235-242 | removes exactly the adjective with the id and reports whether there was one |
| Crud.Store.GetGrammarLessons | app/crud.py:246-252 | exactly the lessons whose tags contain the tag |
| Crud.Store.CreateGrammarLesson | app/crud.py:255-266 | always appends one lesson with the given fields and a fresh id; there is no duplicate check |
| Crud.Store.constructor | app/db.py:92-95 | freshly created tables are empty, and the empty store is valid |
| Practice.DigitTokens | app/routers/practice.py:44 | keeps at most one id per token, and every id is non-negative |
| Practice.ParseExcludeIds | app/routers/practice.py:42-44 | an absent parameter excludes nothing; otherwise at most one non-negative id per comma-separated token |
| Practice.DigitTokensAppend | app/routers/practice.py:44 | tokens are converted one at a time: the ids of two token lists put together are the two id lists put together |
| Practice.DigitTokensSnoc | app/routers/practice.py:44 | one more token adds its value when, stripped, it is all digits, and adds nothing otherwise |
| Practice.DigitTokensMembers | app/routers/practice.py:44 | an id is in the list exactly when some token, stripped, is all digits and spells it |
| Practice.ExcludeIdsExactly | app/routers/practice.py:42-44 | the parameter excludes exactly the ids its comma-separated tokens spell; tokens such as `abc`, `-2` or `1.5` are dropped |
| Practice.ExcludeIdsRoundTrip | app/routers/practice.py:42-44 | any list of ids joined with commas parses back to the same list, in order; an empty parameter gives the empty list |
| Practice.DigitTokensOfIds | app/routers/practice.py:44 | the decimal spellings of ids convert back to those ids |
| Practice.GetRandomNounApi | app/routers/practice.py:35-56 | answers "No more items available" exactly when no noun passes the tag filter and the parsed exclusions; otherwise a card for a stored noun that passes both |
| Practice.GetRandomVerbApi | app/routers/practice.py:115-140 | the same for verbs; the card copies the forms and the group fields |
| Practice.GetRandomAdjectiveApi | app/routers/practice.py:208-232 | the same for adjectives |
| Practice.ScanTranslations | app/routers/practice.py:91-97 | the loop with `break` finds the first stored translation whose lower-cased, stripped form equals the answer |
| Practice.FirstMatchIsFirst | app/routers/practice.py:91-97 | no match exactly when no translation equals the answer; otherwise the match is the earliest equal entry |
| Practice.AnyNormEquals | app/routers/practice.py:185 | true exactly when some translation equals the answer after lower-casing and stripping |
| Practice.GradeNoun | app/routers/practice.py:72-99 | the verdict equals the grading policy: article compared stripped and lower-cased against the stored article lower-cased but not stripped; the translation graded by the first match; blank answers stay correct; `all_correct` is the conjunction of the two flags |
| Practice.GradeForm | app/routers/practice.py:170-180 | a form is correct unless the answer is non-blank, a form is stored, and the two differ after lower-casing and stripping |
| Practice.GradeVerb | app/routers/practice.py:156-192 | the verdict equals the policy: three forms and the translation, stored values echoed unchanged, and `all_correct` the conjunction of the four flags |
| Practice.GradeAdjective | app/routers/practice.py:248-276 | the verdict equals the policy: neuter, plural and translation, and `all_correct` the conjunction of the three flags |
| Practice.CheckNounAnswer | app/routers/practice.py:59-101 | "Noun not found" exactly for an unknown id; otherwise the noun's verdict |
| Practice.CheckVerbAnswer | app/routers/practice.py:143-194 | "Verb not found" exactly for an unknown id; otherwise the verb's verdict |
| Practice.CheckAdjectiveAnswer | app/routers/practice.py:235-278 | "Adjective not found" exactly for an unknown id; otherwise the adjective's verdict |
| Practice.BlankBodyIsAllCorrect | app/routers/practice.py:74-99 | a body holding only blank answers is all correct for every word class, with no matched translation |
| Practice.UnsetFormIsNeverWrong | app/routers/practice.py:170-180 | each of the verb's `presens`, `preteritum` and `perfect_participle` and the adjective's `neuter` and `plural` with nothing stored is correct whatever is answered |
| Practice.NonListRejectsTranslation | app/routers/practice.py:72-99 | when the translations column is not a list, a non-blank translation answer is wrong, and so is the whole answer |
| Practice.NounMatchIsFirstEqualTranslation | app/routers/practice.py:88-97 | the translation is correct exactly when a match is reported, and the match is the earliest equal stored translation |
| Practice.TranslationOrderIrrelevant | app/routers/practice.py:185 | whether a translation is accepted depends only on which translations are stored, not on their order or repetition |
| Practice.PaddedArticleNeverMatches | app/routers/practice.py:85 | a stored article with white space around it can never be matched, since only the answer is stripped |
| Practice.StoredFormInAnyCaseAccepted | app/routers/practice.py:172 | the stored form typed in any letter case and padded with white space is accepted |
| Admin.Lines | app/routers/admin.py:50 | the stripped text cut at newlines: at least one line, none holding a newline, and joined again they give the stripped text back |
| Admin.DashSides | app/routers/admin.py:54-64 | a line is accepted exactly when, stripped, it splits into exactly two pieces on the en-dash; the two sides are stripped and hold no en-dash |
| Admin.ParseNounLine | app/routers/admin.py:53-76 | a noun line is accepted only if it has exactly one en-dash and its left side splits into an article in en/ei/et and a non-empty word; the translation list is never empty |
| Admin.ParseVerbLine | app/routers/admin.py:158-182 | a verb line is accepted exactly when it has one en-dash; forms are filled from the left, so a later form is present only when the earlier ones are |
| Admin.ParseAdjectiveLine | app/routers/admin.py:275-298 | an adjective line is accepted exactly when it has one en-dash; `plural` is present only when `neuter` is |
| Admin.Col | app/routers/admin.py:99-101 | a cell is read stripped, and a missing column reads as empty |
| Admin.OptCol | app/routers/admin.py:102-103 | an optional cell is `None` exactly when it is blank, and otherwise a non-empty stripped value |
| Admin.ParseNounRow | app/routers/admin.py:99-112 | a noun row is accepted exactly when its article is en, ei or et and its word is not blank; the translation list is never empty |
| Admin.ParseVerbRow | app/routers/admin.py:211-226 | a verb row is accepted exactly when neither its infinitive nor its translation cell is blank |
| Admin.ParseAdjectiveRow | app/routers/admin.py:326-340 | an adjective row is accepted exactly when neither its base nor its translation cell is blank |
| Admin.CommaList | app/routers/admin.py:76 | splitting on commas always yields at least one entry |
| Admin.SplitTranslations | app/routers/admin.py:109-112 | a translations cell always yields at least one entry; which entries is stated by `Admin.SplitTranslationsRoundTrip` and `Admin.SplitTranslationsCommaRoundTrip` |
| Admin.Parsed | app/routers/admin.py:53-76 | no more drafts than lines or rows; which drafts they are is stated by `Admin.ParsedAll` and the import methods |
| Admin.NewDrafts | app/crud.py:59-61 | no more accepted drafts than drafts; which ones is stated by `Admin.NewDraftsAreFresh`, `Admin.KnownDraftsAddNothing` and the `Add*` loops |
| Admin.NewDraftsAreFresh | app/crud.py:59-61 | every accepted draft has a key that is not stored, and the accepted drafts have pairwise different keys |
| Admin.KnownDraftsAddNothing | app/crud.py:59-61 | drafts whose keys are all stored add nothing, so running an import a second time adds no row |
| Admin.DashSidesRoundTrip | app/routers/admin.py:54-64 | a line `left – right` splits back into `left` and `right` |
| Admin.DashlessLineSkipped | app/routers/admin.py:55-59 | a line without an en-dash, such as one separated by a hyphen, yields no noun, verb or adjective |
| Admin.NounLineRoundTrip | app/routers/admin.py:53-76 | `article word – t1, t2` parses back to that article, word and translation list |
| Admin.VerbLineRoundTrip | app/routers/admin.py:158-182 | `infinitive,presens,preteritum,perfect – translations` parses back to those forms: a form written empty (`g,,h`) comes back as `Some("")`, a form not written at all as `None` |
| Admin.AdjectiveLineRoundTrip | app/routers/admin.py:275-298 | `base,neuter,plural – translations` parses back to those forms, an empty form as `Some("")` and a missing one as `None` |
| Admin.LinesRoundTrip | app/routers/admin.py:50 | lines joined with newlines come back one by one |
| Admin.ParsedAll | app/routers/admin.py:53-79 | when every line parses, the drafts are the lines' drafts in order |
| Admin.ParsedAppend | app/routers/admin.py:53-79 | lines are parsed one at a time: the drafts of two runs of lines put together are the two draft lists put together |
| Admin.RejectedItemSkipped | app/routers/admin.py:53-79 | a rejected line or row anywhere contributes nothing, and the drafts of the others keep their order |
| Admin.NounTextRoundTrip | app/routers/admin.py:44-79 | a list of nouns written one per line is parsed back to exactly that list |
| Admin.OptColRoundTrip | app/routers/admin.py:102-103 | an optional column written as empty or as its value reads back as `None` or that value |
| Admin.SplitTranslationsRoundTrip | app/routers/admin.py:109-112 | two or more translations joined with `|` read back as the same list, commas inside a translation kept (`a, b|c` gives `a, b` and `c`); a single comma-free translation reads back alone |
| Admin.SplitTranslationsCommaRoundTrip | app/routers/admin.py:109-112 | a cell without `|` is split on commas: translations joined with `, ` read back as the same list, empty ones included |
| Admin.NounRowRoundTrip | app/routers/admin.py:98-113 | a noun written as a CSV row parses back to the same noun |
| Admin.VerbRowRoundTrip | app/routers/admin.py:210-226 | a verb written as a CSV row, with its group columns, parses back to the same verb |
| Admin.AdjectiveRowRoundTrip | app/routers/admin.py:325-340 | an adjective written as a CSV row parses back to the same adjective |
| Admin.BlankNounTranslationsKept | app/routers/admin.py:101-112 | a noun row with a blank translations cell is still imported, with the single translation `""` |
| Admin.AddNoun | app/routers/admin.py:114-126 | one `create_noun` call: stores a noun exactly when its (article, word) is new, keeps the import invariant and reports whether a noun was added |
| Admin.AddNouns | app/routers/admin.py:98-126 | over all drafts in order, the table becomes the old table followed by one noun for each draft with a new key; `added` is their number |
| Admin.AddVerb | app/routers/admin.py:228-242 | one `create_verb` call, as for nouns, keyed by the infinitive |
| Admin.AddVerbs | app/routers/admin.py:210-242 | the verbs table becomes the old table followed by one verb per draft with a new infinitive; `added` is their number |
| Admin.AddAdjective | app/routers/admin.py:342-355 | one `create_adjective` call, keyed by the base form |
| Admin.AddAdjectives | app/routers/admin.py:325-355 | the adjectives table becomes the old table followed by one adjective per draft with a new base form |
| Admin.ImportNounsText | app/routers/admin.py:44-81 | the count is the number of accepted lines, duplicates included; the nouns table gains one noun per accepted line with a new (article, word), in line order; the other tables are untouched |
| Admin.ImportVerbsText | app/routers/admin.py:149-194 | the same for verb lines, keyed by the infinitive |
| Admin.ImportAdjectivesText | app/routers/admin.py:266-309 | the same for adjective lines, keyed by the base form |
| Admin.ImportNounsCsv | app/routers/admin.py:85-128 | `added` is the number of accepted rows with a new key, and `added + skipped` the number of accepted rows; the table grows as for the text import |
| Admin.ImportVerbsCsv | app/routers/admin.py:197-244 | the same for verb rows |
| Admin.ImportAdjectivesCsv | app/routers/admin.py:312-357 | the same for adjective rows |
| Search.SearchKey | app/routers/search.py:30 | the key is the query lower-cased with no white space around it |
| Search.MatchTranslation | app/routers/search.py:53-58 | the loop with `break` sets the flag exactly when some translation, lower-cased, contains the key |
| Search.SearchWords | app/routers/search.py:30-134 | echoes `q` unchanged; each list has one hit per returned row, in row order, with the row's fields copied and the flag for that row; each list depends only on its own rows |
| Search.SearchKeyIdempotent | app/routers/search.py:30 | the key of a key is itself |
| Search.SearchKeyIgnoresCaseAndPadding | app/routers/search.py:30 | the query's letter case and the white space around it do not change the key |
| Search.TranslationMatches | app/routers/search.py:53-58 | the flag's definition: some stored translation, lower-cased, contains the key; it never holds without a non-empty translation list |
| Search.QueryInTranslationMatches | app/routers/search.py:53-58 | a translation that contains the query, stripped and written in any letter case, is flagged |
| Search.BlankQueryFlagsEveryTranslatedRow | app/routers/search.py:30-58 | a query of white space only flags exactly the rows that have a translation |
| Search.NoTranslationsNoMatch | app/routers/search.py:53-58 | a row with no translation list, or an empty one, is never flagged |
| Text.LowerIdempotent | app/routers/search.py:30 | lower-casing twice is lower-casing once |
| Text.StripLower | app/routers/search.py:30 | lower-casing and stripping commute |
| Text.StripShape | app/routers/practice.py:85 | a stripped string has no white space at either end |
| Text.StripAround | app/routers/practice.py:85 | white space around a string does not change its stripped form |
| Text.JoinSplit | app/routers/admin.py:50 | splitting a join on its separator gives back the parts |
| Text.SplitJoin | app/routers/admin.py:50 | joining the pieces of a split gives back the string |
| Text.CommaListRoundTrip | app/routers/admin.py:76 | stripped entries joined with `, ` split and strip back to themselves |
| Text.SplitWhitespaceOnceWord | app/routers/admin.py:67-71 | `split(None, 1)` of `word rest` gives back the word and the rest |
| Text.Contains | app/routers/search.py:56 | the substring test holds exactly when the needle occurs at some position |
| Text.OccursLower | app/routers/search.py:56 | a substring stays a substring once both sides are lower-cased |
| Text.NatToStringRoundTrip | app/routers/practice.py:44 | the decimal spelling of a number is all digits and converts back to the number |

## Left out

- HTTP routing, templates, the redirect and JSON responses, status codes and the settings module: web plumbing. The model returns the values the handlers compute; a 404 is `NotFound(message)`.
- The database engine and sessions, and `async`/`await`: the store is a class held in memory, and every handler runs sequentially.
- The SQL filters of the search queries (`ilike` on the forms, JSON `contains` on translations): `Search.SearchWords` takes the returned rows as input.
- Crud.TagMatches: the tag filter is an exact-case substring test of the tag's own characters. SQLite's `LIKE` also folds ASCII letter case, and treats `%` and `_` in the tag as wildcards, so a tag of `%` keeps every row whose tags are set.
- Crud.Store.GetRandomNoun, GetRandomVerb, GetRandomAdjective: the model proves which rows the pick may return, not that the choice is uniform.
- Crud.Store.CreateNoun, CreateVerb, CreateAdjective, CreateGrammarLesson: new ids come from a per-table counter. The model promises only that a new id differs from every stored id. It does not model SQLite reusing the largest id after that row is deleted.
- Column lengths (`String(200)` and the like): SQLite does not enforce them.
- The `phrases` table: no operation of the modelled files touches it.
- Text.Lower: covers ASCII, Latin-1 and the basic Cyrillic capitals. Other characters are left unchanged, which is weaker than Python's full Unicode `lower()`.
- Request bodies whose values are not strings (a number as `article`, say), and CSV rows shorter than the header: in the source `.strip()` raises on them. The model takes string values only (`Practice.Body`, `Admin.Row`).
- UTF-8 decoding of the uploaded CSV and `csv.DictReader`: a row is given as a map from column name to cell text.
- A translations list whose elements are not all strings: the model holds a list of strings (`Vocab.Translations`). In the source such a list passes the list test and then `.lower()` raises in the answer check and in search.
- Search.MatchTranslation: a translations value that is not a list is treated as having no translations. The source would iterate over whatever JSON value is stored, such as the characters of a string.
- Practice.GetRandomNounApi, GetRandomVerbApi, GetRandomAdjectiveApi: a translations value that is not a list is sent as `[]`. The source sends any truthy non-list value unchanged.
- The source's check `len(verb_parts) < 1` (and its adjective twin) can never hold, since a split yields at least one piece; `Admin.CommaList` proves that, and the model has no branch for it.
- Practice.DigitTokens: a token is taken as an id when it is ASCII digits only. Python's `isdigit()` also accepts other Unicode digits, some of which (superscripts, for example) then make `int()` raise.
