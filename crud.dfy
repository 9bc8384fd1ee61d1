/** The vocabulary store behind the CRUD helpers: four tables held in memory,
    with the queries as functions and the writes as methods. */
module Crud {
  import opened Vocab
  import Text

  // ---------------------------------------------------------------------
  // Generic facts about tables held as sequences in row order.

  /** Row ids increase along the table. */
  ghost predicate Ascending<T>(rows: seq<T>, id: T -> int) {
    forall i, j :: 0 <= i < j < |rows| ==> id(rows[i]) < id(rows[j])
  }

  /** Every row id is below the next id to hand out. */
  ghost predicate Below<T>(rows: seq<T>, id: T -> int, next: int) {
    forall i :: 0 <= i < |rows| ==> id(rows[i]) < next
  }

  /** No two rows share a key. */
  ghost predicate Distinct<T, K>(rows: seq<T>, key: T -> K) {
    forall i, j :: 0 <= i < j < |rows| ==> key(rows[i]) != key(rows[j])
  }

  /** The first row satisfying `p`, as `scalar_one_or_none` / `first` yield it. */
  function FindFirst<T>(rows: seq<T>, p: T -> bool): (r: Option<T>)
    ensures r.Some? ==> r.value in rows && p(r.value)
    ensures r.None? <==> forall k :: 0 <= k < |rows| ==> !p(rows[k])
    decreases |rows|
  {
    if |rows| == 0 then None
    else if p(rows[0]) then Some(rows[0])
    else
      var r := FindFirst(rows[1..], p);
      assert forall k :: 1 <= k < |rows| ==> rows[k] == rows[1..][k - 1];
      r
  }

  /** The rows satisfying `p`. */
  function Filter<T(!new)>(rows: seq<T>, p: T -> bool): (r: seq<T>)
    ensures |r| <= |rows|
    ensures forall x :: x in r <==> x in rows && p(x)
    decreases |rows|
  {
    if |rows| == 0 then []
    else
      var rest := Filter(rows[1..], p);
      assert forall x :: x in rows <==> x == rows[0] || x in rows[1..];
      if p(rows[0]) then [rows[0]] + rest else rest
  }

  /** Dropping one row keeps the order of ids and the distinctness of keys. */
  lemma RemoveKeeps<T, K>(rows: seq<T>, k: nat, id: T -> int, key: T -> K)
    requires k < |rows|
    requires Ascending(rows, id) && Distinct(rows, key)
    ensures Ascending(rows[..k] + rows[k + 1..], id)
    ensures Distinct(rows[..k] + rows[k + 1..], key)
    ensures forall x :: x in rows[..k] + rows[k + 1..] ==> x in rows
  {
    var s := rows[..k] + rows[k + 1..];
    forall i | 0 <= i < |s| ensures s[i] == rows[if i < k then i else i + 1] {
    }
  }

  /** The index of the row with this id. */
  function IndexOfId<T>(rows: seq<T>, id: T -> int, x: int): (k: nat)
    requires exists i :: 0 <= i < |rows| && id(rows[i]) == x
    ensures k < |rows| && id(rows[k]) == x
    decreases |rows|
  {
    if id(rows[0]) == x then 0
    else
      assert exists i :: 0 <= i < |rows[1..]| && id(rows[1..][i]) == x by {
        var i :| 0 <= i < |rows| && id(rows[i]) == x;
        assert rows[1..][i - 1] == rows[i];
      }
      1 + IndexOfId(rows[1..], id, x)
  }

  // ---------------------------------------------------------------------
  // Filters of the `get_random_*` / `get_all_*` queries.

  /** `if tag: query.where(X.tags.contains(tag))`: a null or empty tag filters nothing. */
  function TagMatches(tags: Option<string>, tag: Option<string>): (r: bool)
    ensures r <==> tag.None? || tag.value == [] || (tags.Some? && Text.Occurs(tag.value, tags.value))
    ensures tag.Some? && tags == tag ==> r
  {
    tag.None? || tag.value == [] || (tags.Some? && Text.Contains(tags.value, tag.value))
  }

  /** `if exclude_ids: query.where(~X.id.in_(exclude_ids))`. */
  function NotExcluded(id: int, excludeIds: Option<seq<int>>): (r: bool)
    ensures r <==> excludeIds.None? || id !in excludeIds.value
  {
    excludeIds.None? || excludeIds.value == [] || id !in excludeIds.value
  }

  function NounId(n: Noun): int { n.id }
  function VerbId(v: Verb): int { v.id }
  function AdjectiveId(a: Adjective): int { a.id }
  function LessonId(l: GrammarLesson): int { l.id }

  /** Natural keys: (article, word) for nouns, the infinitive for verbs, the base for adjectives. */
  function NounKey(n: Noun): (string, string) { (n.article, n.word) }
  function VerbKey(v: Verb): string { v.infinitive }
  function AdjectiveKey(a: Adjective): string { a.base }

  class Store {
    var nouns: seq<Noun>
    var verbs: seq<Verb>
    var adjectives: seq<Adjective>
    var lessons: seq<GrammarLesson>
    var nextNounId: int
    var nextVerbId: int
    var nextAdjectiveId: int
    var nextLessonId: int

    /** Primary keys are unique (ascending in row order, below the next id),
        and at most one row per natural key. */
    ghost predicate Valid()
      reads this
    {
      && Ascending(nouns, NounId) && Below(nouns, NounId, nextNounId) && Distinct(nouns, NounKey)
      && Ascending(verbs, VerbId) && Below(verbs, VerbId, nextVerbId) && Distinct(verbs, VerbKey)
      && Ascending(adjectives, AdjectiveId) && Below(adjectives, AdjectiveId, nextAdjectiveId)
      && Distinct(adjectives, AdjectiveKey)
      && Ascending(lessons, LessonId) && Below(lessons, LessonId, nextLessonId)
    }

    constructor ()
      ensures Valid()
      ensures nouns == [] && verbs == [] && adjectives == [] && lessons == []
    {
      nouns, verbs, adjectives, lessons := [], [], [], [];
      nextNounId, nextVerbId, nextAdjectiveId, nextLessonId := 1, 1, 1, 1;
    }

    ghost function NounKeys(): set<(string, string)>
      reads this
    {
      set k | 0 <= k < |nouns| :: NounKey(nouns[k])
    }

    ghost function VerbKeys(): set<string>
      reads this
    {
      set k | 0 <= k < |verbs| :: VerbKey(verbs[k])
    }

    ghost function AdjectiveKeys(): set<string>
      reads this
    {
      set k | 0 <= k < |adjectives| :: AdjectiveKey(adjectives[k])
    }

    // ----------------------------------------------------------------- nouns

    /** `get_noun`: the noun with this id, if any. */
    function GetNoun(nounId: int): (r: Option<Noun>)
      reads this
      ensures r.Some? ==> r.value in nouns && r.value.id == nounId
      ensures r.None? <==> forall k :: 0 <= k < |nouns| ==> nouns[k].id != nounId
    {
      FindFirst(nouns, (n: Noun) => n.id == nounId)
    }

    /** `get_all_nouns`: every noun whose tags contain `tag`. */
    function GetAllNouns(tag: Option<string>): (r: seq<Noun>)
      reads this
      ensures forall n :: n in r <==> n in nouns && TagMatches(n.tags, tag)
    {
      Filter(nouns, (n: Noun) => TagMatches(n.tags, tag))
    }

    /** `get_random_noun`: some noun passing the tag and exclusion filters, or
        `None` exactly when no noun passes them. */
    method GetRandomNoun(excludeIds: Option<seq<int>>, tag: Option<string>) returns (r: Option<Noun>)
      ensures r.None? <==> forall k :: 0 <= k < |nouns| ==>
                !(TagMatches(nouns[k].tags, tag) && NotExcluded(nouns[k].id, excludeIds))
      ensures r.Some? ==> r.value in nouns && TagMatches(r.value.tags, tag)
                          && NotExcluded(r.value.id, excludeIds)
    {
      var candidates := Filter(nouns, (n: Noun) => TagMatches(n.tags, tag) && NotExcluded(n.id, excludeIds));
      if |candidates| == 0 {
        r := None;
        forall k | 0 <= k < |nouns|
          ensures !(TagMatches(nouns[k].tags, tag) && NotExcluded(nouns[k].id, excludeIds))
        {
          assert nouns[k] in nouns;
        }
      } else {
        var k :| 0 <= k < |candidates|;
        assert candidates[k] in candidates;
        r := Some(candidates[k]);
      }
    }

    /** `find_noun_by_word`: the one noun with this (article, word), if any. */
    function FindNounByWord(article: string, word: string): (r: Option<Noun>)
      reads this
      requires Valid()
      ensures r.Some? <==> (article, word) in NounKeys()
      ensures r.Some? ==> r.value in nouns && r.value.article == article && r.value.word == word
      ensures r.Some? ==> forall k :: 0 <= k < |nouns| && NounKey(nouns[k]) == (article, word)
                                      ==> nouns[k] == r.value
    {
      var r := FindFirst(nouns, (n: Noun) => NounKey(n) == (article, word));
      assert r.None? ==> (article, word) !in NounKeys();
      r
    }

    /** `create_noun`: nothing happens for a duplicate (article, word); otherwise
        exactly one noun with these fields and a fresh id is appended. */
    method CreateNoun(article: string, word: string, translations: seq<string>,
                      definite: Option<string>, plural: Option<string>,
                      tags: Option<string>, level: Option<string>)
      returns (r: Option<Noun>)
      requires Valid()
      modifies this
      ensures Valid()
      ensures r.None? <==> (article, word) in old(NounKeys())
      ensures r.None? ==> nouns == old(nouns)
      ensures r.Some? ==> nouns == old(nouns) + [r.value]
      ensures r.Some? ==> r.value == Noun(r.value.id, article, word, TList(translations),
                                          definite, plural, tags, level)
      ensures r.Some? ==> forall k :: 0 <= k < |old(nouns)| ==> old(nouns)[k].id != r.value.id
      ensures NounKeys() == old(NounKeys()) + {(article, word)}
      ensures verbs == old(verbs) && adjectives == old(adjectives) && lessons == old(lessons)
    {
      var existing := FindNounByWord(article, word);
      if existing.Some? {
        return None;
      }
      var n := Noun(nextNounId, article, word, TList(translations), definite, plural, tags, level);
      nouns := nouns + [n];
      nextNounId := nextNounId + 1;
      r := Some(n);
      assert NounKeys() == old(NounKeys()) + {NounKey(n)} by {
        assert forall k :: 0 <= k < |old(nouns)| ==> nouns[k] == old(nouns)[k];
        assert nouns[|nouns| - 1] == n;
      }
    }

    /** `delete_noun`: removes exactly the noun with this id and reports whether it existed. */
    method DeleteNoun(nounId: int) returns (deleted: bool)
      requires Valid()
      modifies this
      ensures Valid()
      ensures deleted <==> old(GetNoun(nounId)).Some?
      ensures !deleted ==> nouns == old(nouns)
      ensures deleted ==> exists k :: 0 <= k < |old(nouns)| && old(nouns)[k].id == nounId
                                      && nouns == old(nouns)[..k] + old(nouns)[k + 1..]
      ensures verbs == old(verbs) && adjectives == old(adjectives) && lessons == old(lessons)
    {
      var found := GetNoun(nounId);
      if found.None? {
        return false;
      }
      var k := IndexOfId(nouns, NounId, nounId);
      RemoveKeeps(nouns, k, NounId, NounKey);
      nouns := nouns[..k] + nouns[k + 1..];
      deleted := true;
    }

    // ----------------------------------------------------------------- verbs

    /** `get_verb`: the verb with this id, if any. */
    function GetVerb(verbId: int): (r: Option<Verb>)
      reads this
      ensures r.Some? ==> r.value in verbs && r.value.id == verbId
      ensures r.None? <==> forall k :: 0 <= k < |verbs| ==> verbs[k].id != verbId
    {
      FindFirst(verbs, (v: Verb) => v.id == verbId)
    }

    /** `get_all_verbs`: every verb whose tags contain `tag`. */
    function GetAllVerbs(tag: Option<string>): (r: seq<Verb>)
      reads this
      ensures forall v :: v in r <==> v in verbs && TagMatches(v.tags, tag)
    {
      Filter(verbs, (v: Verb) => TagMatches(v.tags, tag))
    }

    /** `get_random_verb`: some verb passing both filters, or `None` exactly when none does. */
    method GetRandomVerb(excludeIds: Option<seq<int>>, tag: Option<string>) returns (r: Option<Verb>)
      ensures r.None? <==> forall k :: 0 <= k < |verbs| ==>
                !(TagMatches(verbs[k].tags, tag) && NotExcluded(verbs[k].id, excludeIds))
      ensures r.Some? ==> r.value in verbs && TagMatches(r.value.tags, tag)
                          && NotExcluded(r.value.id, excludeIds)
    {
      var candidates := Filter(verbs, (v: Verb) => TagMatches(v.tags, tag) && NotExcluded(v.id, excludeIds));
      if |candidates| == 0 {
        r := None;
        forall k | 0 <= k < |verbs|
          ensures !(TagMatches(verbs[k].tags, tag) && NotExcluded(verbs[k].id, excludeIds))
        {
          assert verbs[k] in verbs;
        }
      } else {
        var k :| 0 <= k < |candidates|;
        assert candidates[k] in candidates;
        r := Some(candidates[k]);
      }
    }

    /** `find_verb_by_infinitive`: the one verb with this infinitive, if any. */
    function FindVerbByInfinitive(infinitive: string): (r: Option<Verb>)
      reads this
      requires Valid()
      ensures r.Some? <==> infinitive in VerbKeys()
      ensures r.Some? ==> r.value in verbs && r.value.infinitive == infinitive
      ensures r.Some? ==> forall k :: 0 <= k < |verbs| && verbs[k].infinitive == infinitive
                                      ==> verbs[k] == r.value
    {
      var r := FindFirst(verbs, (v: Verb) => v.infinitive == infinitive);
      assert r.None? ==> infinitive !in VerbKeys();
      r
    }

    /** `create_verb`: nothing happens for a duplicate infinitive; otherwise exactly
        one verb with these fields and a fresh id is appended. */
    method CreateVerb(infinitive: string, translations: seq<string>,
                      presens: Option<string>, preteritum: Option<string>,
                      perfectParticiple: Option<string>, group: Option<string>,
                      groupDescription: Option<string>, tags: Option<string>,
                      level: Option<string>)
      returns (r: Option<Verb>)
      requires Valid()
      modifies this
      ensures Valid()
      ensures r.None? <==> infinitive in old(VerbKeys())
      ensures r.None? ==> verbs == old(verbs)
      ensures r.Some? ==> verbs == old(verbs) + [r.value]
      ensures r.Some? ==> r.value == Verb(r.value.id, infinitive, presens, preteritum,
                                          perfectParticiple, TList(translations), group,
                                          groupDescription, tags, level)
      ensures r.Some? ==> forall k :: 0 <= k < |old(verbs)| ==> old(verbs)[k].id != r.value.id
      ensures VerbKeys() == old(VerbKeys()) + {infinitive}
      ensures nouns == old(nouns) && adjectives == old(adjectives) && lessons == old(lessons)
    {
      var existing := FindVerbByInfinitive(infinitive);
      if existing.Some? {
        return None;
      }
      var v := Verb(nextVerbId, infinitive, presens, preteritum, perfectParticiple,
                    TList(translations), group, groupDescription, tags, level);
      verbs := verbs + [v];
      nextVerbId := nextVerbId + 1;
      r := Some(v);
      assert VerbKeys() == old(VerbKeys()) + {VerbKey(v)} by {
        assert forall k :: 0 <= k < |old(verbs)| ==> verbs[k] == old(verbs)[k];
        assert verbs[|verbs| - 1] == v;
      }
    }

    /** `delete_verb`: removes exactly the verb with this id and reports whether it existed. */
    method DeleteVerb(verbId: int) returns (deleted: bool)
      requires Valid()
      modifies this
      ensures Valid()
      ensures deleted <==> old(GetVerb(verbId)).Some?
      ensures !deleted ==> verbs == old(verbs)
      ensures deleted ==> exists k :: 0 <= k < |old(verbs)| && old(verbs)[k].id == verbId
                                      && verbs == old(verbs)[..k] + old(verbs)[k + 1..]
      ensures nouns == old(nouns) && adjectives == old(adjectives) && lessons == old(lessons)
    {
      var found := GetVerb(verbId);
      if found.None? {
        return false;
      }
      var k := IndexOfId(verbs, VerbId, verbId);
      RemoveKeeps(verbs, k, VerbId, VerbKey);
      verbs := verbs[..k] + verbs[k + 1..];
      deleted := true;
    }

    // ------------------------------------------------------------ adjectives

    /** `get_adjective`: the adjective with this id, if any. */
    function GetAdjective(adjectiveId: int): (r: Option<Adjective>)
      reads this
      ensures r.Some? ==> r.value in adjectives && r.value.id == adjectiveId
      ensures r.None? <==> forall k :: 0 <= k < |adjectives| ==> adjectives[k].id != adjectiveId
    {
      FindFirst(adjectives, (a: Adjective) => a.id == adjectiveId)
    }

    /** `get_all_adjectives`: every adjective whose tags contain `tag`. */
    function GetAllAdjectives(tag: Option<string>): (r: seq<Adjective>)
      reads this
      ensures forall a :: a in r <==> a in adjectives && TagMatches(a.tags, tag)
    {
      Filter(adjectives, (a: Adjective) => TagMatches(a.tags, tag))
    }

    /** `get_random_adjective`: some adjective passing both filters, or `None` exactly when none does. */
    method GetRandomAdjective(excludeIds: Option<seq<int>>, tag: Option<string>)
      returns (r: Option<Adjective>)
      ensures r.None? <==> forall k :: 0 <= k < |adjectives| ==>
                !(TagMatches(adjectives[k].tags, tag) && NotExcluded(adjectives[k].id, excludeIds))
      ensures r.Some? ==> r.value in adjectives && TagMatches(r.value.tags, tag)
                          && NotExcluded(r.value.id, excludeIds)
    {
      var candidates := Filter(adjectives,
        (a: Adjective) => TagMatches(a.tags, tag) && NotExcluded(a.id, excludeIds));
      if |candidates| == 0 {
        r := None;
        forall k | 0 <= k < |adjectives|
          ensures !(TagMatches(adjectives[k].tags, tag) && NotExcluded(adjectives[k].id, excludeIds))
        {
          assert adjectives[k] in adjectives;
        }
      } else {
        var k :| 0 <= k < |candidates|;
        assert candidates[k] in candidates;
        r := Some(candidates[k]);
      }
    }

    /** `find_adjective_by_base`: the one adjective with this base form, if any. */
    function FindAdjectiveByBase(base: string): (r: Option<Adjective>)
      reads this
      requires Valid()
      ensures r.Some? <==> base in AdjectiveKeys()
      ensures r.Some? ==> r.value in adjectives && r.value.base == base
      ensures r.Some? ==> forall k :: 0 <= k < |adjectives| && adjectives[k].base == base
                                      ==> adjectives[k] == r.value
    {
      var r := FindFirst(adjectives, (a: Adjective) => a.base == base);
      assert r.None? ==> base !in AdjectiveKeys();
      r
    }

    /** `create_adjective`: nothing happens for a duplicate base; otherwise exactly one
        adjective with these fields and a fresh id is appended. */
    method CreateAdjective(base: string, translations: seq<string>,
                           neuter: Option<string>, plural: Option<string>,
                           comparative: Option<string>, superlative: Option<string>,
                           group: Option<string>, groupDescription: Option<string>,
                           tags: Option<string>, level: Option<string>)
      returns (r: Option<Adjective>)
      requires Valid()
      modifies this
      ensures Valid()
      ensures r.None? <==> base in old(AdjectiveKeys())
      ensures r.None? ==> adjectives == old(adjectives)
      ensures r.Some? ==> adjectives == old(adjectives) + [r.value]
      ensures r.Some? ==> r.value == Adjective(r.value.id, base, neuter, plural, comparative,
                                               superlative, TList(translations), group,
                                               groupDescription, tags, level)
      ensures r.Some? ==> forall k :: 0 <= k < |old(adjectives)| ==> old(adjectives)[k].id != r.value.id
      ensures AdjectiveKeys() == old(AdjectiveKeys()) + {base}
      ensures nouns == old(nouns) && verbs == old(verbs) && lessons == old(lessons)
    {
      var existing := FindAdjectiveByBase(base);
      if existing.Some? {
        return None;
      }
      var a := Adjective(nextAdjectiveId, base, neuter, plural, comparative, superlative,
                         TList(translations), group, groupDescription, tags, level);
      adjectives := adjectives + [a];
      nextAdjectiveId := nextAdjectiveId + 1;
      r := Some(a);
      assert AdjectiveKeys() == old(AdjectiveKeys()) + {AdjectiveKey(a)} by {
        assert forall k :: 0 <= k < |old(adjectives)| ==> adjectives[k] == old(adjectives)[k];
        assert adjectives[|adjectives| - 1] == a;
      }
    }

    /** `delete_adjective`: removes exactly the adjective with this id and reports whether it existed. */
    method DeleteAdjective(adjectiveId: int) returns (deleted: bool)
      requires Valid()
      modifies this
      ensures Valid()
      ensures deleted <==> old(GetAdjective(adjectiveId)).Some?
      ensures !deleted ==> adjectives == old(adjectives)
      ensures deleted ==> exists k :: 0 <= k < |old(adjectives)| && old(adjectives)[k].id == adjectiveId
                                      && adjectives == old(adjectives)[..k] + old(adjectives)[k + 1..]
      ensures nouns == old(nouns) && verbs == old(verbs) && lessons == old(lessons)
    {
      var found := GetAdjective(adjectiveId);
      if found.None? {
        return false;
      }
      var k := IndexOfId(adjectives, AdjectiveId, adjectiveId);
      RemoveKeeps(adjectives, k, AdjectiveId, AdjectiveKey);
      adjectives := adjectives[..k] + adjectives[k + 1..];
      deleted := true;
    }

    // ------------------------------------------------------- grammar lessons

    /** `get_grammar_lessons`: every lesson whose tags contain `tag`. */
    function GetGrammarLessons(tag: Option<string>): (r: seq<GrammarLesson>)
      reads this
      ensures forall l :: l in r <==> l in lessons && TagMatches(l.tags, tag)
    {
      Filter(lessons, (l: GrammarLesson) => TagMatches(l.tags, tag))
    }

    /** `create_grammar_lesson`: always appends a lesson with a fresh id; there is no duplicate check. */
    method CreateGrammarLesson(title: string, content: string, tags: Option<string>, level: Option<string>)
      returns (l: GrammarLesson)
      requires Valid()
      modifies this
      ensures Valid()
      ensures lessons == old(lessons) + [l]
      ensures l == GrammarLesson(l.id, title, content, tags, level)
      ensures forall k :: 0 <= k < |old(lessons)| ==> old(lessons)[k].id != l.id
      ensures nouns == old(nouns) && verbs == old(verbs) && adjectives == old(adjectives)
    {
      l := GrammarLesson(nextLessonId, title, content, tags, level);
      lessons := lessons + [l];
      nextLessonId := nextLessonId + 1;
    }
  }
}
