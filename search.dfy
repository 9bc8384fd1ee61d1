/** The word search: the query's search key and, for every row the database
    returns, a hit that copies the row and flags whether one of its translations
    contains the key. Which rows the database returns (the `ilike` and JSON
    filters) is an input here. */
module Search {
  import opened Vocab
  import opened Text

  datatype NounHit = NounHit(
    id: int,
    article: string,
    word: string,
    definite: Option<string>,
    plural: Option<string>,
    translations: Translations,
    matchedTranslation: bool)

  datatype VerbHit = VerbHit(
    id: int,
    infinitive: string,
    presens: Option<string>,
    preteritum: Option<string>,
    perfectParticiple: Option<string>,
    translations: Translations,
    group: Option<string>,
    groupDescription: Option<string>,
    matchedTranslation: bool)

  datatype AdjectiveHit = AdjectiveHit(
    id: int,
    base: string,
    neuter: Option<string>,
    plural: Option<string>,
    translations: Translations,
    group: Option<string>,
    groupDescription: Option<string>,
    matchedTranslation: bool)

  /** The response: the query as sent, and one list per word class. */
  datatype SearchResults = SearchResults(
    query: string,
    nouns: seq<NounHit>,
    verbs: seq<VerbHit>,
    adjectives: seq<AdjectiveHit>)

  /** `q.lower().strip()`: the key is lower case and carries no surrounding white space. */
  function SearchKey(q: string): (key: string)
    ensures Stripped(key)
  {
    StripShape(Lower(q));
    Norm(q)
  }

  /** Some stored translation, lower-cased but not stripped, contains the key. */
  ghost function TranslationMatches(key: string, t: Translations): (r: bool)
    ensures r ==> t.TList? && t.items != []
  {
    exists i :: 0 <= i < |TranslationList(t)| && Occurs(key, Lower(TranslationList(t)[i]))
  }

  ghost function NounHitOf(key: string, n: Noun): NounHit {
    NounHit(n.id, n.article, n.word, n.definite, n.plural, n.translations,
            TranslationMatches(key, n.translations))
  }

  ghost function VerbHitOf(key: string, v: Verb): VerbHit {
    VerbHit(v.id, v.infinitive, v.presens, v.preteritum, v.perfectParticiple, v.translations,
            v.group, v.groupDescription, TranslationMatches(key, v.translations))
  }

  ghost function AdjectiveHitOf(key: string, a: Adjective): AdjectiveHit {
    AdjectiveHit(a.id, a.base, a.neuter, a.plural, a.translations, a.group, a.groupDescription,
                 TranslationMatches(key, a.translations))
  }

  /** The `matched` flag loop: stop at the first translation whose lower-cased form
      contains the key. */
  method MatchTranslation(key: string, t: Translations) returns (matched: bool)
    ensures matched <==> TranslationMatches(key, t)
  {
    var translations := TranslationList(t);
    matched := false;
    var i := 0;
    while i < |translations|
      invariant 0 <= i <= |translations|
      invariant forall k :: 0 <= k < i ==> !Occurs(key, Lower(translations[k]))
    {
      if Contains(Lower(translations[i]), key) {
        matched := true;
        break;
      }
      i := i + 1;
    }
  }

  /** `search_words` over the rows the three queries return: one hit per row, in
      row order, each list built from its own rows only. */
  method SearchWords(q: string, nouns: seq<Noun>, verbs: seq<Verb>, adjectives: seq<Adjective>)
    returns (r: SearchResults)
    ensures r.query == q
    ensures |r.nouns| == |nouns|
    ensures forall k :: 0 <= k < |nouns| ==> r.nouns[k] == NounHitOf(SearchKey(q), nouns[k])
    ensures |r.verbs| == |verbs|
    ensures forall k :: 0 <= k < |verbs| ==> r.verbs[k] == VerbHitOf(SearchKey(q), verbs[k])
    ensures |r.adjectives| == |adjectives|
    ensures forall k :: 0 <= k < |adjectives| ==>
              r.adjectives[k] == AdjectiveHitOf(SearchKey(q), adjectives[k])
  {
    var key := SearchKey(q);

    var nounHits: seq<NounHit> := [];
    for i := 0 to |nouns|
      invariant |nounHits| == i
      invariant forall k :: 0 <= k < i ==> nounHits[k] == NounHitOf(key, nouns[k])
    {
      var n := nouns[i];
      var matched := MatchTranslation(key, n.translations);
      nounHits := nounHits + [NounHit(n.id, n.article, n.word, n.definite, n.plural,
                                      n.translations, matched)];
    }

    var verbHits: seq<VerbHit> := [];
    for i := 0 to |verbs|
      invariant |verbHits| == i
      invariant forall k :: 0 <= k < i ==> verbHits[k] == VerbHitOf(key, verbs[k])
    {
      var v := verbs[i];
      var matched := MatchTranslation(key, v.translations);
      verbHits := verbHits + [VerbHit(v.id, v.infinitive, v.presens, v.preteritum,
                                      v.perfectParticiple, v.translations, v.group,
                                      v.groupDescription, matched)];
    }

    var adjectiveHits: seq<AdjectiveHit> := [];
    for i := 0 to |adjectives|
      invariant |adjectiveHits| == i
      invariant forall k :: 0 <= k < i ==> adjectiveHits[k] == AdjectiveHitOf(key, adjectives[k])
    {
      var a := adjectives[i];
      var matched := MatchTranslation(key, a.translations);
      adjectiveHits := adjectiveHits + [AdjectiveHit(a.id, a.base, a.neuter, a.plural,
                                                     a.translations, a.group,
                                                     a.groupDescription, matched)];
    }

    r := SearchResults(q, nounHits, verbHits, adjectiveHits);
  }

  // ------------------------------------------------------------------ properties

  /** The key of a key is itself: searching for the normalised query changes nothing. */
  lemma SearchKeyIdempotent(q: string)
    ensures SearchKey(SearchKey(q)) == SearchKey(q)
  {
    var key := SearchKey(q);
    StripLower(Lower(q));
    LowerIdempotent(q);
    assert Lower(key) == key;
    StrippedIsFixed(key);
  }

  /** Neither the case of the query nor white space around it changes the key. */
  lemma SearchKeyIgnoresCaseAndPadding(pre: string, q: string, post: string)
    requires AllSpace(pre) && AllSpace(post)
    ensures SearchKey(pre + Lower(q) + post) == SearchKey(q)
  {
    LowerAppend(pre, Lower(q));
    LowerAppend(pre + Lower(q), post);
    LowerIdempotent(q);
    LowerSpaces(pre);
    LowerSpaces(post);
    StripAround(pre, Lower(q), post);
  }

  /** A translation containing the query, written in any letter case and with any
      white space around it, is flagged: `typed` is how the query occurs in the
      translation, `q` the same letters in whatever case the user sent. */
  lemma QueryInTranslationMatches(q: string, typed: string, t: Translations, i: int)
    requires 0 <= i < |TranslationList(t)|
    requires Lower(q) == Lower(typed)
    requires Occurs(Strip(typed), TranslationList(t)[i])
    ensures TranslationMatches(SearchKey(q), t)
  {
    StripLower(typed);
    OccursLower(Strip(typed), TranslationList(t)[i]);
  }

  /** A blank query (white space only) flags exactly the rows that have a translation. */
  lemma BlankQueryFlagsEveryTranslatedRow(q: string, t: Translations)
    requires SearchKey(q) == []
    ensures TranslationMatches(SearchKey(q), t) <==> TranslationList(t) != []
  {
    if TranslationList(t) != [] {
      OccursEmpty(Lower(TranslationList(t)[0]));
    }
  }

  /** Without a translation list, or with an empty one, no row is flagged. */
  lemma NoTranslationsNoMatch(key: string, t: Translations)
    requires t.NotList? || t.items == []
    ensures !TranslationMatches(key, t)
  {
  }
}
