/** The practice API: random-card endpoints with their `exclude_ids` parsing,
    and the lenient answer checks for nouns, verbs and adjectives. */
module Practice {
  import opened Vocab
  import opened Text
  import Crud

  /** A JSON request body restricted to string values; a JSON `null` reads as an
      absent key, as `body.get` makes both `None`. */
  type Body = map<string, string>

  /** What an endpoint sends back: a payload, or an error message with a 404. */
  datatype Response<T> = Ok(value: T) | NotFound(message: string)

  const NoMoreItems: string := "No more items available"

  function Field(body: Body, key: string): Option<string> {
    if key in body then Some(body[key]) else None
  }

  /** `x and x.strip()`: the submission holds something other than white space. */
  predicate Answered(answer: Option<string>) {
    answer.Some? && answer.value != [] && Strip(answer.value) != []
  }

  /** Truthiness of a nullable text column: set and non-empty. */
  predicate Truthy(stored: Option<string>) {
    stored.Some? && stored.value != []
  }

  // -------------------------------------------------------------- exclude_ids

  /** What one token contributes: its value when, stripped, it is all digits. */
  function TokenId(token: string): seq<int> {
    var t := Strip(token);
    if IsDigits(t) then [DigitsValue(t) as int] else []
  }

  /** `[int(x) for x in tokens if x.strip().isdigit()]`. */
  function DigitTokens(tokens: seq<string>): (ids: seq<int>)
    ensures |ids| <= |tokens|
    ensures forall x :: x in ids ==> x >= 0
    decreases |tokens|
  {
    if |tokens| == 0 then [] else TokenId(tokens[0]) + DigitTokens(tokens[1..])
  }

  /** The `exclude_ids` query parameter as a list of ids; absent or empty gives `[]`. */
  function ParseExcludeIds(param: Option<string>): (ids: seq<int>)
    ensures param.None? ==> ids == []
    ensures param.Some? ==> |ids| <= |Split(param.value, ',')|
    ensures forall x :: x in ids ==> x >= 0
  {
    if param.None? || param.value == [] then [] else DigitTokens(Split(param.value, ','))
  }

  /** Tokens are converted one by one: parsing a concatenation of token lists
      concatenates the id lists. */
  lemma {:induction false} DigitTokensAppend(a: seq<string>, b: seq<string>)
    ensures DigitTokens(a + b) == DigitTokens(a) + DigitTokens(b)
    decreases |a|
  {
    if |a| == 0 {
      assert a + b == b;
    } else {
      DigitTokensAppend(a[1..], b);
      DropFirstOfAppend(a, b);
    }
  }

  lemma DropFirstOfAppend<T>(a: seq<T>, b: seq<T>)
    requires |a| > 0
    ensures (a + b)[0] == a[0] && (a + b)[1..] == a[1..] + b
  {
  }

  /** One more token adds its value when its stripped form is all digits, and
      nothing otherwise. */
  lemma DigitTokensSnoc(tokens: seq<string>, t: string)
    ensures DigitTokens(tokens + [t])
            == DigitTokens(tokens) + (if IsDigits(Strip(t)) then [DigitsValue(Strip(t)) as int] else [])
  {
    DigitTokensAppend(tokens, [t]);
    assert [t][1..] == [];
  }

  /** An id is kept exactly when some token, stripped, is all digits and spells it. */
  lemma {:induction false} DigitTokensMembers(tokens: seq<string>, x: int)
    ensures x in DigitTokens(tokens) <==>
              exists i :: 0 <= i < |tokens| && IsDigits(Strip(tokens[i]))
                          && DigitsValue(Strip(tokens[i])) == x
    decreases |tokens|
  {
    if |tokens| > 0 {
      DigitTokensMembers(tokens[1..], x);
      assert forall i :: 1 <= i < |tokens| ==> tokens[i] == tokens[1..][i - 1];
      if exists i :: 1 <= i < |tokens| && IsDigits(Strip(tokens[i])) && DigitsValue(Strip(tokens[i])) == x {
        var i :| 1 <= i < |tokens| && IsDigits(Strip(tokens[i])) && DigitsValue(Strip(tokens[i])) == x;
        assert tokens[1..][i - 1] == tokens[i];
      }
    }
  }

  /** `exclude_ids` excludes exactly the ids spelled by one of its comma-separated
      tokens; a token that is not all digits once stripped (`abc`, `-2`, `1.5`) is dropped. */
  lemma ExcludeIdsExactly(param: string, x: int)
    ensures x in ParseExcludeIds(Some(param)) <==>
              exists i :: 0 <= i < |Split(param, ',')| && IsDigits(Strip(Split(param, ',')[i]))
                          && DigitsValue(Strip(Split(param, ',')[i])) == x
  {
    if param == [] {
      assert Split(param, ',') == [[]];
      assert Strip([]) == [];
    } else {
      DigitTokensMembers(Split(param, ','), x);
    }
  }

  /** The client side of the parameter: each id written in decimal. */
  function IdStrings(ids: seq<nat>): seq<string> {
    seq(|ids|, k requires 0 <= k < |ids| => NatToString(ids[k]))
  }

  lemma {:induction false} DigitTokensOfIds(ids: seq<nat>)
    ensures DigitTokens(IdStrings(ids)) == ids
    decreases |ids|
  {
    if |ids| > 0 {
      var s := NatToString(ids[0]);
      NatToStringRoundTrip(ids[0]);
      assert Stripped(s);
      StrippedIsFixed(s);
      assert IdStrings(ids)[1..] == IdStrings(ids[1..]);
      DigitTokensOfIds(ids[1..]);
      assert [ids[0]] + ids[1..] == ids;
    }
  }

  /** The client's `ids.join(',')` parses back to the same ids. */
  lemma ExcludeIdsRoundTrip(ids: seq<nat>)
    ensures ParseExcludeIds(Some(Join(IdStrings(ids), ","))) == ids
  {
    if |ids| > 0 {
      var parts := IdStrings(ids);
      forall k | 0 <= k < |parts| ensures ',' !in parts[k] {
        NatToStringRoundTrip(ids[k]);
      }
      JoinSplit(parts, ',');
      NatToStringRoundTrip(ids[0]);
      assert Join(parts, ",") != [] by {
        if |parts| == 1 { assert parts[0] != []; }
        else { assert |Join(parts, ",")| >= |parts[0]|; }
      }
      DigitTokensOfIds(ids);
    }
  }

  // ------------------------------------------------------------- random cards

  datatype NounCard = NounCard(id: int, article: string, word: string, translations: seq<string>)

  datatype VerbCard = VerbCard(
    id: int, infinitive: string, presens: Option<string>, preteritum: Option<string>,
    perfectParticiple: Option<string>, translations: seq<string>,
    group: Option<string>, groupDescription: Option<string>)

  datatype AdjectiveCard = AdjectiveCard(
    id: int, base: string, neuter: Option<string>, plural: Option<string>,
    translations: seq<string>, group: Option<string>, groupDescription: Option<string>)

  function NounCardOf(n: Noun): NounCard {
    NounCard(n.id, n.article, n.word, TranslationList(n.translations))
  }

  function VerbCardOf(v: Verb): VerbCard {
    VerbCard(v.id, v.infinitive, v.presens, v.preteritum, v.perfectParticiple,
             TranslationList(v.translations), v.group, v.groupDescription)
  }

  function AdjectiveCardOf(a: Adjective): AdjectiveCard {
    AdjectiveCard(a.id, a.base, a.neuter, a.plural, TranslationList(a.translations),
                  a.group, a.groupDescription)
  }

  /** `get_random_noun_api`: a card for some noun that passes the filters, or the
      "No more items available" error exactly when none does. */
  method GetRandomNounApi(store: Crud.Store, excludeIds: Option<string>, tag: Option<string>)
    returns (r: Response<NounCard>)
    ensures r.NotFound? <==> forall k :: 0 <= k < |store.nouns| ==>
              !(Crud.TagMatches(store.nouns[k].tags, tag)
                && Crud.NotExcluded(store.nouns[k].id, Some(ParseExcludeIds(excludeIds))))
    ensures r.NotFound? ==> r.message == NoMoreItems
    ensures r.Ok? ==> exists n :: n in store.nouns && r.value == NounCardOf(n)
                                  && Crud.TagMatches(n.tags, tag) && n.id !in ParseExcludeIds(excludeIds)
  {
    var excludeList := ParseExcludeIds(excludeIds);
    var noun := store.GetRandomNoun(Some(excludeList), tag);
    if noun.None? {
      return NotFound(NoMoreItems);
    }
    r := Ok(NounCardOf(noun.value));
  }

  /** `get_random_verb_api`: a card for some verb that passes the filters, or the
      "No more items available" error exactly when none does. */
  method GetRandomVerbApi(store: Crud.Store, excludeIds: Option<string>, tag: Option<string>)
    returns (r: Response<VerbCard>)
    ensures r.NotFound? <==> forall k :: 0 <= k < |store.verbs| ==>
              !(Crud.TagMatches(store.verbs[k].tags, tag)
                && Crud.NotExcluded(store.verbs[k].id, Some(ParseExcludeIds(excludeIds))))
    ensures r.NotFound? ==> r.message == NoMoreItems
    ensures r.Ok? ==> exists v :: v in store.verbs && r.value == VerbCardOf(v)
                                  && Crud.TagMatches(v.tags, tag) && v.id !in ParseExcludeIds(excludeIds)
  {
    var excludeList := ParseExcludeIds(excludeIds);
    var verb := store.GetRandomVerb(Some(excludeList), tag);
    if verb.None? {
      return NotFound(NoMoreItems);
    }
    r := Ok(VerbCardOf(verb.value));
  }

  /** `get_random_adjective_api`: a card for some adjective that passes the filters,
      or the "No more items available" error exactly when none does. */
  method GetRandomAdjectiveApi(store: Crud.Store, excludeIds: Option<string>, tag: Option<string>)
    returns (r: Response<AdjectiveCard>)
    ensures r.NotFound? <==> forall k :: 0 <= k < |store.adjectives| ==>
              !(Crud.TagMatches(store.adjectives[k].tags, tag)
                && Crud.NotExcluded(store.adjectives[k].id, Some(ParseExcludeIds(excludeIds))))
    ensures r.NotFound? ==> r.message == NoMoreItems
    ensures r.Ok? ==> exists a :: a in store.adjectives && r.value == AdjectiveCardOf(a)
                                  && Crud.TagMatches(a.tags, tag) && a.id !in ParseExcludeIds(excludeIds)
  {
    var excludeList := ParseExcludeIds(excludeIds);
    var adj := store.GetRandomAdjective(Some(excludeList), tag);
    if adj.None? {
      return NotFound(NoMoreItems);
    }
    r := Ok(AdjectiveCardOf(adj.value));
  }

  // ---------------------------------------------------------- grading policy

  /** A graded verb or adjective form: judged only when the answer is not blank
      and a form is stored; then both sides are compared lower-cased and stripped. */
  predicate FormAccepted(answer: Option<string>, stored: Option<string>) {
    !Answered(answer) || !Truthy(stored) || Norm(answer.value) == Norm(stored.value)
  }

  /** The noun article: judged when the answer is not blank, against the stored
      article lower-cased but not stripped. */
  predicate ArticleAccepted(answer: Option<string>, stored: string) {
    !Answered(answer) || Norm(answer.value) == Lower(stored)
  }

  /** A translation: judged when the answer is not blank; then right when some stored
      translation is equal to it with both sides lower-cased and stripped. */
  ghost predicate TranslationAccepted(answer: Option<string>, translations: seq<string>) {
    !Answered(answer) || exists i :: 0 <= i < |translations| && Norm(translations[i]) == Norm(answer.value)
  }

  /** The first stored translation whose normal form is `key`. */
  function FirstMatch(translations: seq<string>, key: string): Option<string>
    decreases |translations|
  {
    if |translations| == 0 then None
    else if Norm(translations[0]) == key then Some(translations[0])
    else FirstMatch(translations[1..], key)
  }

  /** `FirstMatch` reports the earliest matching entry, and nothing only when no entry matches. */
  lemma {:induction false} FirstMatchIsFirst(translations: seq<string>, key: string)
    ensures FirstMatch(translations, key).None? <==>
              forall i :: 0 <= i < |translations| ==> Norm(translations[i]) != key
    ensures FirstMatch(translations, key).Some? ==>
              exists i :: 0 <= i < |translations| && translations[i] == FirstMatch(translations, key).value
                          && Norm(translations[i]) == key
                          && forall j :: 0 <= j < i ==> Norm(translations[j]) != key
    decreases |translations|
  {
    if |translations| > 0 && Norm(translations[0]) != key {
      var rest := translations[1..];
      FirstMatchIsFirst(rest, key);
      assert forall i :: 1 <= i < |translations| ==> translations[i] == rest[i - 1];
      if FirstMatch(rest, key).Some? {
        var i :| 0 <= i < |rest| && rest[i] == FirstMatch(rest, key).value && Norm(rest[i]) == key
                 && forall j :: 0 <= j < i ==> Norm(rest[j]) != key;
        assert translations[i + 1] == rest[i];
      }
    } else if |translations| > 0 {
      assert translations[0] == FirstMatch(translations, key).value;
    }
  }

  /** `any(key == t.lower().strip() for t in translations)`. */
  function AnyNormEquals(translations: seq<string>, key: string): (r: bool)
    ensures r <==> exists i :: 0 <= i < |translations| && Norm(translations[i]) == key
    decreases |translations|
  {
    if |translations| == 0 then false
    else if Norm(translations[0]) == key then true
    else
      var r := AnyNormEquals(translations[1..], key);
      assert forall i :: 1 <= i < |translations| ==> translations[i] == translations[1..][i - 1];
      r
  }

  // ------------------------------------------------------------------ verdicts

  datatype NounVerdict = NounVerdict(
    articleCorrect: bool,
    translationCorrect: bool,
    correctArticle: string,
    correctTranslations: seq<string>,
    matchedTranslation: Option<string>,
    allCorrect: bool)

  datatype VerbVerdict = VerbVerdict(
    presensCorrect: bool,
    preteritumCorrect: bool,
    perfectCorrect: bool,
    translationCorrect: bool,
    correctPresens: Option<string>,
    correctPreteritum: Option<string>,
    correctPerfect: Option<string>,
    correctTranslations: seq<string>,
    allCorrect: bool)

  datatype AdjectiveVerdict = AdjectiveVerdict(
    neuterCorrect: bool,
    pluralCorrect: bool,
    translationCorrect: bool,
    correctNeuter: Option<string>,
    correctPlural: Option<string>,
    correctTranslations: seq<string>,
    allCorrect: bool)

  /** The verdict the noun check owes: two flags, the echoes, the first matching
      translation, and their conjunction. */
  ghost function NounVerdictOf(noun: Noun, body: Body): NounVerdict {
    var ts := TranslationList(noun.translations);
    var article := Field(body, "article");
    var translation := Field(body, "translation");
    var a := ArticleAccepted(article, noun.article);
    var t := TranslationAccepted(translation, ts);
    NounVerdict(a, t, noun.article, ts,
                if Answered(translation) then FirstMatch(ts, Norm(translation.value)) else None,
                a && t)
  }

  ghost function VerbVerdictOf(verb: Verb, body: Body): VerbVerdict {
    var ts := TranslationList(verb.translations);
    var pres := FormAccepted(Field(body, "presens"), verb.presens);
    var pret := FormAccepted(Field(body, "preteritum"), verb.preteritum);
    var perf := FormAccepted(Field(body, "perfect_participle"), verb.perfectParticiple);
    var t := TranslationAccepted(Field(body, "translation"), ts);
    VerbVerdict(pres, pret, perf, t, verb.presens, verb.preteritum, verb.perfectParticiple, ts,
                pres && pret && perf && t)
  }

  ghost function AdjectiveVerdictOf(adj: Adjective, body: Body): AdjectiveVerdict {
    var ts := TranslationList(adj.translations);
    var neut := FormAccepted(Field(body, "neuter"), adj.neuter);
    var pl := FormAccepted(Field(body, "plural"), adj.plural);
    var t := TranslationAccepted(Field(body, "translation"), ts);
    AdjectiveVerdict(neut, pl, t, adj.neuter, adj.plural, ts, neut && pl && t)
  }

  /** The `for t in translations ... break ... else` loop of the noun check: the
      first entry equal to the answer, scanning in stored order. */
  method ScanTranslations(translations: seq<string>, userTrans: string) returns (matched: Option<string>)
    ensures matched == FirstMatch(translations, userTrans)
  {
    matched := None;
    var i := 0;
    while i < |translations|
      invariant 0 <= i <= |translations|
      invariant FirstMatch(translations[i..], userTrans) == FirstMatch(translations, userTrans)
    {
      if userTrans == Norm(translations[i]) {
        matched := Some(translations[i]);
        return;
      }
      assert translations[i..][1..] == translations[i + 1..];
      i := i + 1;
    }
  }

  /** The body of `check_noun_answer` once the noun is found: defaults first, then
      each answered field overwritten; translations scanned in order up to the first match. */
  method GradeNoun(noun: Noun, body: Body) returns (v: NounVerdict)
    ensures v == NounVerdictOf(noun, body)
  {
    var translations := TranslationList(noun.translations);
    v := NounVerdict(true, true, noun.article, translations, None, false);

    var article := Field(body, "article");
    if article.Some? && article.value != [] && Strip(article.value) != [] {
      v := v.(articleCorrect := Norm(article.value) == Lower(noun.article));
    }

    var translation := Field(body, "translation");
    if translation.Some? && translation.value != [] && Strip(translation.value) != [] {
      var userTrans := Norm(translation.value);
      var matched := ScanTranslations(translations, userTrans);
      FirstMatchIsFirst(translations, userTrans);
      if matched.Some? {
        v := v.(translationCorrect := true, matchedTranslation := matched);
      } else {
        v := v.(translationCorrect := false);
      }
    }

    v := v.(allCorrect := v.articleCorrect && v.translationCorrect);
  }

  /** One form of the verb and adjective checks: correct unless the answer is
      non-blank, a form is stored, and the two differ after normalisation. */
  method GradeForm(answer: Option<string>, stored: Option<string>) returns (ok: bool)
    ensures ok == FormAccepted(answer, stored)
  {
    ok := true;
    if Answered(answer) && Truthy(stored) {
      ok := Norm(answer.value) == Norm(stored.value);
    }
  }

  /** The body of `check_verb_answer` once the verb is found. */
  method GradeVerb(verb: Verb, body: Body) returns (v: VerbVerdict)
    ensures v == VerbVerdictOf(verb, body)
  {
    var translations := TranslationList(verb.translations);
    v := VerbVerdict(true, true, true, true, verb.presens, verb.preteritum,
                     verb.perfectParticiple, translations, false);

    var presensOk := GradeForm(Field(body, "presens"), verb.presens);
    var preteritumOk := GradeForm(Field(body, "preteritum"), verb.preteritum);
    var perfectOk := GradeForm(Field(body, "perfect_participle"), verb.perfectParticiple);
    v := v.(presensCorrect := presensOk, preteritumCorrect := preteritumOk,
            perfectCorrect := perfectOk);
    var translation := Field(body, "translation");
    if Answered(translation) {
      v := v.(translationCorrect := AnyNormEquals(translations, Norm(translation.value)));
    }

    v := v.(allCorrect := v.presensCorrect && v.preteritumCorrect && v.perfectCorrect
                          && v.translationCorrect);
  }

  /** The body of `check_adjective_answer` once the adjective is found. */
  method GradeAdjective(adj: Adjective, body: Body) returns (v: AdjectiveVerdict)
    ensures v == AdjectiveVerdictOf(adj, body)
  {
    var translations := TranslationList(adj.translations);
    v := AdjectiveVerdict(true, true, true, adj.neuter, adj.plural, translations, false);

    var neuterOk := GradeForm(Field(body, "neuter"), adj.neuter);
    var pluralOk := GradeForm(Field(body, "plural"), adj.plural);
    v := v.(neuterCorrect := neuterOk, pluralCorrect := pluralOk);
    var translation := Field(body, "translation");
    if Answered(translation) {
      v := v.(translationCorrect := AnyNormEquals(translations, Norm(translation.value)));
    }

    v := v.(allCorrect := v.neuterCorrect && v.pluralCorrect && v.translationCorrect);
  }

  /** `check_noun_answer`: "Noun not found" when the id is unknown, the verdict otherwise. */
  method CheckNounAnswer(store: Crud.Store, nounId: int, body: Body) returns (r: Response<NounVerdict>)
    ensures store.GetNoun(nounId).None? ==> r == NotFound("Noun not found")
    ensures store.GetNoun(nounId).Some? ==> r == Ok(NounVerdictOf(store.GetNoun(nounId).value, body))
  {
    var noun := store.GetNoun(nounId);
    if noun.None? {
      return NotFound("Noun not found");
    }
    var v := GradeNoun(noun.value, body);
    r := Ok(v);
  }

  /** `check_verb_answer`: "Verb not found" when the id is unknown, the verdict otherwise. */
  method CheckVerbAnswer(store: Crud.Store, verbId: int, body: Body) returns (r: Response<VerbVerdict>)
    ensures store.GetVerb(verbId).None? ==> r == NotFound("Verb not found")
    ensures store.GetVerb(verbId).Some? ==> r == Ok(VerbVerdictOf(store.GetVerb(verbId).value, body))
  {
    var verb := store.GetVerb(verbId);
    if verb.None? {
      return NotFound("Verb not found");
    }
    var v := GradeVerb(verb.value, body);
    r := Ok(v);
  }

  /** `check_adjective_answer`: "Adjective not found" when the id is unknown, the verdict otherwise. */
  method CheckAdjectiveAnswer(store: Crud.Store, adjectiveId: int, body: Body)
    returns (r: Response<AdjectiveVerdict>)
    ensures store.GetAdjective(adjectiveId).None? ==> r == NotFound("Adjective not found")
    ensures store.GetAdjective(adjectiveId).Some? ==>
              r == Ok(AdjectiveVerdictOf(store.GetAdjective(adjectiveId).value, body))
  {
    var adj := store.GetAdjective(adjectiveId);
    if adj.None? {
      return NotFound("Adjective not found");
    }
    var v := GradeAdjective(adj.value, body);
    r := Ok(v);
  }

  // ------------------------------------------------------- properties of grading

  /** Grading is lenient: a body with nothing but blank answers is all correct, for
      every word class and whatever is stored. */
  lemma BlankBodyIsAllCorrect(noun: Noun, verb: Verb, adj: Adjective, body: Body)
    requires forall key :: key in body ==> Strip(body[key]) == []
    ensures NounVerdictOf(noun, body).allCorrect
    ensures VerbVerdictOf(verb, body).allCorrect
    ensures AdjectiveVerdictOf(adj, body).allCorrect
    ensures NounVerdictOf(noun, body).matchedTranslation.None?
  {
  }

  /** A form with nothing stored is never marked wrong, whatever is answered. */
  lemma UnsetFormIsNeverWrong(verb: Verb, adj: Adjective, body: Body)
    ensures !Truthy(verb.presens) ==> VerbVerdictOf(verb, body).presensCorrect
    ensures !Truthy(verb.preteritum) ==> VerbVerdictOf(verb, body).preteritumCorrect
    ensures !Truthy(verb.perfectParticiple) ==> VerbVerdictOf(verb, body).perfectCorrect
    ensures !Truthy(adj.neuter) ==> AdjectiveVerdictOf(adj, body).neuterCorrect
    ensures !Truthy(adj.plural) ==> AdjectiveVerdictOf(adj, body).pluralCorrect
  {
  }

  /** A translations column that is not a list rejects every non-blank translation answer. */
  lemma NonListRejectsTranslation(noun: Noun, verb: Verb, adj: Adjective, body: Body)
    requires noun.translations == NotList && verb.translations == NotList && adj.translations == NotList
    requires Answered(Field(body, "translation"))
    ensures !NounVerdictOf(noun, body).translationCorrect && !NounVerdictOf(noun, body).allCorrect
    ensures !VerbVerdictOf(verb, body).translationCorrect && !VerbVerdictOf(verb, body).allCorrect
    ensures !AdjectiveVerdictOf(adj, body).translationCorrect && !AdjectiveVerdictOf(adj, body).allCorrect
    ensures NounVerdictOf(noun, body).matchedTranslation.None?
  {
  }

  /** The noun's reported match is the earliest stored translation equal to the answer,
      and there is one exactly when the answer is judged right. */
  lemma NounMatchIsFirstEqualTranslation(noun: Noun, body: Body)
    requires Answered(Field(body, "translation"))
    ensures var v := NounVerdictOf(noun, body);
            var ts := TranslationList(noun.translations);
            var key := Norm(Field(body, "translation").value);
            && (v.translationCorrect <==> v.matchedTranslation.Some?)
            && (v.matchedTranslation.Some? ==>
                  exists i :: 0 <= i < |ts| && ts[i] == v.matchedTranslation.value
                              && Norm(ts[i]) == key
                              && forall j :: 0 <= j < i ==> Norm(ts[j]) != key)
  {
    var ts := TranslationList(noun.translations);
    FirstMatchIsFirst(ts, Norm(Field(body, "translation").value));
  }

  /** Whether a translation is accepted depends on the set of stored translations,
      not on their order or repetition. */
  lemma TranslationOrderIrrelevant(answer: Option<string>, ts1: seq<string>, ts2: seq<string>)
    requires forall t :: t in ts1 <==> t in ts2
    ensures TranslationAccepted(answer, ts1) == TranslationAccepted(answer, ts2)
  {
    if Answered(answer) {
      var key := Norm(answer.value);
      if exists i :: 0 <= i < |ts1| && Norm(ts1[i]) == key {
        var i :| 0 <= i < |ts1| && Norm(ts1[i]) == key;
        assert ts1[i] in ts2;
        var j :| 0 <= j < |ts2| && ts2[j] == ts1[i];
      }
      if exists i :: 0 <= i < |ts2| && Norm(ts2[i]) == key {
        var i :| 0 <= i < |ts2| && Norm(ts2[i]) == key;
        assert ts2[i] in ts1;
        var j :| 0 <= j < |ts1| && ts1[j] == ts2[i];
      }
    }
  }

  /** An article stored with white space around it can never be matched, since the
      answer is stripped and the stored article is not. */
  lemma PaddedArticleNeverMatches(stored: string, answer: Option<string>)
    requires !Stripped(Lower(stored))
    requires Answered(answer)
    ensures !ArticleAccepted(answer, stored)
  {
    StripShape(Lower(answer.value));
  }

  /** Answering a stored form in any letter case, padded with white space, is right. */
  lemma StoredFormInAnyCaseAccepted(stored: string, answer: string, pre: string, post: string)
    requires Lower(answer) == Lower(stored)
    requires AllSpace(pre) && AllSpace(post)
    ensures FormAccepted(Some(pre + answer + post), Some(stored))
  {
    var a := pre + answer + post;
    LowerSpaces(pre);
    LowerSpaces(post);
    assert Lower(a) == Lower(pre) + Lower(answer) + Lower(post);
    StripShape(Lower(answer));
    StripAround(Lower(pre), Lower(answer), Lower(post));
  }
}
