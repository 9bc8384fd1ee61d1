/** The admin bulk imports: one-line-per-word text and CSV rows, parsed into drafts
    and fed to the store's create operations, which skip duplicates. */
module Admin {
  import opened Vocab
  import opened Text
  import Crud

  /** The separator of the text formats, U+2013 EN DASH. */
  const EnDash: char := '\U{2013}'

  /** The articles a noun may carry. */
  const Articles: seq<string> := ["en", "ei", "et"]

  /** A CSV row as `csv.DictReader` gives it: column name to cell text. */
  type Row = map<string, string>

  datatype NounDraft = NounDraft(
    article: string, word: string, translations: seq<string>,
    definite: Option<string>, plural: Option<string>)

  datatype VerbDraft = VerbDraft(
    infinitive: string, presens: Option<string>, preteritum: Option<string>,
    perfect: Option<string>, translations: seq<string>,
    group: Option<string>, groupDescription: Option<string>)

  datatype AdjectiveDraft = AdjectiveDraft(
    base: string, neuter: Option<string>, plural: Option<string>, translations: seq<string>,
    group: Option<string>, groupDescription: Option<string>)

  function NounDraftKey(d: NounDraft): (string, string) { (d.article, d.word) }
  function VerbDraftKey(d: VerbDraft): string { d.infinitive }
  function AdjectiveDraftKey(d: AdjectiveDraft): string { d.base }

  // --------------------------------------------------------------- text lines

  /** `text_data.strip().split('\n')`. */
  function Lines(textData: string): (lines: seq<string>)
    ensures |lines| >= 1
    ensures forall k :: 0 <= k < |lines| ==> '\n' !in lines[k]
    ensures Join(lines, "\n") == Strip(textData)
  {
    SplitJoin(Strip(textData), '\n');
    Split(Strip(textData), '\n')
  }

  /** `[t.strip() for t in s.split(',')]`. */
  function CommaList(s: string): (r: seq<string>)
    ensures |r| >= 1
  {
    StripAll(Split(s, ','))
  }

  /** The two sides of a text line around its single en-dash, both stripped; `None`
      for a blank line, a line without an en-dash, or one with two or more. */
  function DashSides(raw: string): (sides: Option<(string, string)>)
    ensures sides.Some? <==> |Split(Strip(raw), EnDash)| == 2
    ensures sides.Some? ==> Stripped(sides.value.0) && Stripped(sides.value.1)
    ensures sides.Some? ==> EnDash !in sides.value.0 && EnDash !in sides.value.1
  {
    var line := Strip(raw);
    var parts := Split(line, EnDash);
    if line == [] || EnDash !in line then
      NoSepSplit(line, EnDash);
      None
    else if |parts| != 2 then None
    else
      SplitJoin(line, EnDash);
      StripShape(parts[0]);
      StripShape(parts[1]);
      StripAvoids(parts[0], EnDash);
      StripAvoids(parts[1], EnDash);
      Some((Strip(parts[0]), Strip(parts[1])))
  }

  /** One line of the noun text import: `article word – translation, translation`. */
  function ParseNounLine(raw: string): (r: Option<NounDraft>)
    ensures r.Some? ==> DashSides(raw).Some?
    ensures r.Some? ==> r.value.article in Articles && r.value.word != []
    ensures r.Some? ==> SplitWhitespaceOnce(DashSides(raw).value.0) == [r.value.article, r.value.word]
    ensures r.Some? ==> |r.value.translations| >= 1 && r.value.definite.None? && r.value.plural.None?
  {
    match DashSides(raw)
    case None => None
    case Some((left, right)) =>
      var leftParts := SplitWhitespaceOnce(left);
      if |leftParts| != 2 || leftParts[0] !in Articles then None
      else Some(NounDraft(leftParts[0], leftParts[1], CommaList(right), None, None))
  }

  /** `xs[i] if len(xs) > i else None`. */
  function Nth(xs: seq<string>, i: nat): Option<string> {
    if |xs| > i then Some(xs[i]) else None
  }

  /** One line of the verb text import: `infinitive, presens, preteritum, perfect – translations`,
      any form after the infinitive being optional. */
  function ParseVerbLine(raw: string): (r: Option<VerbDraft>)
    ensures r.Some? <==> DashSides(raw).Some?
    ensures r.Some? ==> |r.value.translations| >= 1 && r.value.group.None? && r.value.groupDescription.None?
    ensures r.Some? ==> (r.value.perfect.Some? ==> r.value.preteritum.Some?)
                        && (r.value.preteritum.Some? ==> r.value.presens.Some?)
  {
    match DashSides(raw)
    case None => None
    case Some((left, right)) =>
      var forms := CommaList(left);
      Some(VerbDraft(forms[0], Nth(forms, 1), Nth(forms, 2), Nth(forms, 3), CommaList(right), None, None))
  }

  /** One line of the adjective text import: `base, neuter, plural – translations`. */
  function ParseAdjectiveLine(raw: string): (r: Option<AdjectiveDraft>)
    ensures r.Some? <==> DashSides(raw).Some?
    ensures r.Some? ==> |r.value.translations| >= 1 && r.value.group.None? && r.value.groupDescription.None?
    ensures r.Some? ==> (r.value.plural.Some? ==> r.value.neuter.Some?)
  {
    match DashSides(raw)
    case None => None
    case Some((left, right)) =>
      var forms := CommaList(left);
      Some(AdjectiveDraft(forms[0], Nth(forms, 1), Nth(forms, 2), CommaList(right), None, None))
  }

  // ------------------------------------------------------------------ CSV rows

  /** `row.get(key, '').strip()`. */
  function Col(row: Row, key: string): (cell: string)
    ensures Stripped(cell)
    ensures key !in row ==> cell == []
  {
    if key in row then StripShape(row[key]); Strip(row[key]) else []
  }

  /** `row.get(key, '').strip() or None`. */
  function OptCol(row: Row, key: string): (cell: Option<string>)
    ensures cell.None? <==> Col(row, key) == []
    ensures cell.Some? ==> cell.value != [] && Stripped(cell.value)
  {
    var v := Col(row, key);
    if v == [] then None else Some(v)
  }

  /** A translations cell: split on `|` when it holds one, on `,` otherwise. */
  function SplitTranslations(s: string): (r: seq<string>)
    ensures |r| >= 1
  {
    if '|' in s then StripAll(Split(s, '|')) else CommaList(s)
  }

  /** A noun row; skipped without an article or word, or with an article outside en/ei/et. */
  function ParseNounRow(row: Row): (r: Option<NounDraft>)
    ensures r.Some? <==> Col(row, "article") in Articles && Col(row, "word") != []
    ensures r.Some? ==> r.value.article in Articles && r.value.word != [] && Stripped(r.value.word)
    ensures r.Some? ==> |r.value.translations| >= 1
  {
    var article := Col(row, "article");
    var word := Col(row, "word");
    if article == [] || word == [] || article !in Articles then None
    else Some(NounDraft(article, word, SplitTranslations(Col(row, "translations")),
                        OptCol(row, "definite"), OptCol(row, "plural")))
  }

  /** A verb row; skipped without an infinitive or a translation. */
  function ParseVerbRow(row: Row): (r: Option<VerbDraft>)
    ensures r.Some? <==> Col(row, "infinitive") != [] && Col(row, "translation") != []
    ensures r.Some? ==> r.value.infinitive != [] && Stripped(r.value.infinitive)
    ensures r.Some? ==> |r.value.translations| >= 1
  {
    var infinitive := Col(row, "infinitive");
    var transStr := Col(row, "translation");
    if infinitive == [] || transStr == [] then None
    else Some(VerbDraft(infinitive, OptCol(row, "presens"), OptCol(row, "preteritum"),
                        OptCol(row, "perfect"), SplitTranslations(transStr),
                        OptCol(row, "group"), OptCol(row, "group_description")))
  }

  /** An adjective row; skipped without a base or a translation. */
  function ParseAdjectiveRow(row: Row): (r: Option<AdjectiveDraft>)
    ensures r.Some? <==> Col(row, "base") != [] && Col(row, "translation") != []
    ensures r.Some? ==> r.value.base != [] && Stripped(r.value.base)
    ensures r.Some? ==> |r.value.translations| >= 1
  {
    var base := Col(row, "base");
    var transStr := Col(row, "translation");
    if base == [] || transStr == [] then None
    else Some(AdjectiveDraft(base, OptCol(row, "neuter"), OptCol(row, "plural"),
                             SplitTranslations(transStr),
                             OptCol(row, "group"), OptCol(row, "group_description")))
  }

  // ------------------------------------------------------ what an import adds

  /** `[x]` for `Some(x)`, `[]` for `None`. */
  function AsSeq<D>(o: Option<D>): seq<D> {
    if o.Some? then [o.value] else []
  }

  /** The drafts of the items that parse, in input order. */
  function Parsed<L, D>(items: seq<L>, parse: L -> Option<D>): (r: seq<D>)
    ensures |r| <= |items|
    decreases |items|
  {
    if |items| == 0 then []
    else
      Parsed(items[..|items| - 1], parse) + AsSeq(parse(items[|items| - 1]))
  }

  function DraftKeys<D, K>(drafts: seq<D>, key: D -> K): set<K>
    decreases |drafts|
  {
    if |drafts| == 0 then {}
    else DraftKeys(drafts[..|drafts| - 1], key) + {key(drafts[|drafts| - 1])}
  }

  /** The drafts the store accepts, in order: those whose key is neither stored
      already (`known`) nor taken by an earlier draft. */
  function NewDrafts<D, K>(known: set<K>, drafts: seq<D>, key: D -> K): (r: seq<D>)
    ensures |r| <= |drafts|
    decreases |drafts|
  {
    if |drafts| == 0 then []
    else
      var init := drafts[..|drafts| - 1];
      var d := drafts[|drafts| - 1];
      NewDrafts(known, init, key) + (if key(d) in known + DraftKeys(init, key) then [] else [d])
  }

  /** `after` is `before` with one row made from each of `accepted` appended, in order. */
  ghost predicate Extends<R, D>(before: seq<R>, after: seq<R>, accepted: seq<D>, madeFrom: (R, D) -> bool) {
    && |after| == |before| + |accepted|
    && after[..|before|] == before
    && forall k {:trigger accepted[k]} :: 0 <= k < |accepted| ==> madeFrom(after[|before| + k], accepted[k])
  }

  predicate NounMadeFrom(n: Noun, d: NounDraft) {
    && n.article == d.article && n.word == d.word && n.translations == TList(d.translations)
    && n.definite == d.definite && n.plural == d.plural && n.tags.None? && n.level.None?
  }

  predicate VerbMadeFrom(v: Verb, d: VerbDraft) {
    && v.infinitive == d.infinitive && v.presens == d.presens && v.preteritum == d.preteritum
    && v.perfectParticiple == d.perfect && v.translations == TList(d.translations)
    && v.group == d.group && v.groupDescription == d.groupDescription
    && v.tags.None? && v.level.None?
  }

  predicate AdjectiveMadeFrom(a: Adjective, d: AdjectiveDraft) {
    && a.base == d.base && a.neuter == d.neuter && a.plural == d.plural
    && a.comparative.None? && a.superlative.None? && a.translations == TList(d.translations)
    && a.group == d.group && a.groupDescription == d.groupDescription
    && a.tags.None? && a.level.None?
  }

  lemma TakeOneMore<T>(s: seq<T>, i: nat)
    requires i < |s|
    ensures s[..i + 1] == s[..i] + [s[i]]
  {
  }

  lemma AppendDraft<D, K>(known: set<K>, drafts: seq<D>, d: D, key: D -> K)
    ensures DraftKeys(drafts + [d], key) == DraftKeys(drafts, key) + {key(d)}
    ensures NewDrafts(known, drafts + [d], key)
            == NewDrafts(known, drafts, key) + (if key(d) in known + DraftKeys(drafts, key) then [] else [d])
  {
    assert (drafts + [d])[..|drafts|] == drafts;
  }

  lemma ExtendsStep<R, D>(before: seq<R>, after: seq<R>, accepted: seq<D>, madeFrom: (R, D) -> bool, x: R, d: D)
    requires Extends(before, after, accepted, madeFrom)
    requires madeFrom(x, d)
    ensures Extends(before, after + [x], accepted + [d], madeFrom)
  {
    var longer := after + [x];
    assert longer[..|before|] == after[..|before|];
    forall k | 0 <= k < |accepted| + 1
      ensures madeFrom(longer[|before| + k], (accepted + [d])[k])
    {
      if k < |accepted| {
        assert longer[|before| + k] == after[|before| + k];
      }
    }
  }

  /** One draft handed to a create operation: the accepted drafts grow by it exactly
      when its key is new, and the table by the record made from it. */
  lemma ImportStep<R, D, K>(known: set<K>, drafts: seq<D>, d: D, key: D -> K, madeFrom: (R, D) -> bool,
                            start: seq<R>, before: seq<R>, after: seq<R>, created: Option<R>)
    requires Extends(start, before, NewDrafts(known, drafts, key), madeFrom)
    requires created.None? <==> key(d) in known + DraftKeys(drafts, key)
    requires created.None? ==> after == before
    requires created.Some? ==> after == before + [created.value] && madeFrom(created.value, d)
    ensures Extends(start, after, NewDrafts(known, drafts + [d], key), madeFrom)
    ensures DraftKeys(drafts + [d], key) == DraftKeys(drafts, key) + {key(d)}
  {
    AppendDraft(known, drafts, d, key);
    if created.Some? {
      ExtendsStep(start, before, NewDrafts(known, drafts, key), madeFrom, created.value, d);
    }
  }

  /** An import never stores two records with one key, nor one whose key was already stored. */
  lemma {:induction false} NewDraftsAreFresh<D, K>(known: set<K>, drafts: seq<D>, key: D -> K)
    ensures forall k :: 0 <= k < |NewDrafts(known, drafts, key)| ==>
              key(NewDrafts(known, drafts, key)[k]) !in known
              && key(NewDrafts(known, drafts, key)[k]) in DraftKeys(drafts, key)
    ensures forall j, k :: 0 <= j < k < |NewDrafts(known, drafts, key)| ==>
              key(NewDrafts(known, drafts, key)[j]) != key(NewDrafts(known, drafts, key)[k])
    decreases |drafts|
  {
    if |drafts| > 0 {
      var init := drafts[..|drafts| - 1];
      NewDraftsAreFresh(known, init, key);
    }
  }

  /** Importing drafts whose keys are all stored already adds nothing; in particular
      importing the same input a second time. */
  lemma {:induction false} KnownDraftsAddNothing<D, K>(known: set<K>, drafts: seq<D>, key: D -> K)
    requires DraftKeys(drafts, key) <= known
    ensures NewDrafts(known, drafts, key) == []
    decreases |drafts|
  {
    if |drafts| > 0 {
      KnownDraftsAddNothing(known, drafts[..|drafts| - 1], key);
    }
  }

  // --------------------------------------------------------------- round trips

  /** An entry the formats carry unchanged, possibly empty: stripped, and free of
      the characters the parsers cut at. */
  predicate Bare(s: string) {
    Stripped(s) && ',' !in s && '|' !in s && EnDash !in s && '\n' !in s
  }

  /** A non-empty entry the formats carry unchanged. */
  predicate Plain(s: string) {
    s != [] && Bare(s)
  }

  /** The forms of a verb or adjective line: a non-empty first form, and later
      forms that may be empty (`g, , h` leaves the second form blank). */
  predicate FormList(forms: seq<string>) {
    |forms| >= 1 && Plain(forms[0]) && forall k :: 0 <= k < |forms| ==> Bare(forms[k])
  }

  predicate AllPlain(xs: seq<string>) {
    |xs| >= 1 && forall k :: 0 <= k < |xs| ==> Plain(xs[k])
  }

  /** `left – right`, the shape of every text-import line. */
  function DashLine(left: string, right: string): string {
    left + " " + [EnDash] + " " + right
  }

  lemma DashSidesRoundTrip(left: string, right: string)
    requires left != [] && Stripped(left) && EnDash !in left
    requires right != [] && Stripped(right) && EnDash !in right
    ensures DashSides(DashLine(left, right)) == Some((left, right))
  {
    var head := left + " ";
    var tail := " " + right;
    var line := head + ([EnDash] + tail);
    assert DashLine(left, right) == line;
    assert line[0] == left[0];
    assert line[|line| - 1] == right[|right| - 1];
    StrippedIsFixed(line);
    assert line[|head|] == EnDash;
    SplitPrefix(head, tail, EnDash);
    NoSepSplit(tail, EnDash);
    assert [] + left + " " == head;
    StripPadded([], left, " ");
    assert " " + right + [] == tail;
    StripPadded(" ", right, []);
  }

  /** A line whose only dash is a hyphen is skipped: the hyphen fallback of the
      import loops is never reached. */
  lemma DashlessLineSkipped(raw: string)
    requires EnDash !in raw
    ensures DashSides(raw) == None
    ensures ParseNounLine(raw) == None && ParseVerbLine(raw) == None
    ensures ParseAdjectiveLine(raw) == None
  {
    if EnDash in Strip(raw) {
      StripKeeps(raw, EnDash);
    }
  }

  /** A noun written as `article word – translation, translation`. */
  function NounLine(d: NounDraft): string {
    DashLine(d.article + " " + d.word, Join(d.translations, ", "))
  }

  /** A noun the text format can express. */
  predicate TextNoun(d: NounDraft) {
    d.article in Articles && Plain(d.word) && AllPlain(d.translations)
    && d.definite.None? && d.plural.None?
  }

  lemma NounLineRoundTrip(d: NounDraft)
    requires TextNoun(d)
    ensures ParseNounLine(NounLine(d)) == Some(d)
  {
    var left := d.article + " " + d.word;
    var right := Join(d.translations, ", ");
    NounLeftSide(d);
    JoinStripped(d.translations, ", ");
    JoinAvoids(d.translations, ", ", EnDash);
    DashSidesRoundTrip(left, right);
    CommaListRoundTrip(d.translations);
  }

  /** The `article word` side of a noun line. */
  lemma NounLeftSide(d: NounDraft)
    requires TextNoun(d)
    ensures d.article + " " + d.word != [] && Stripped(d.article + " " + d.word)
    ensures EnDash !in d.article + " " + d.word && '\n' !in d.article + " " + d.word
    ensures SplitWhitespaceOnce(d.article + " " + d.word) == [d.article, d.word]
  {
    assert d.article == "en" || d.article == "ei" || d.article == "et";
    SplitWhitespaceOnceWord(d.article, d.word);
  }

  /** A verb written as `infinitive,presens,preteritum,perfect – translations`,
      with as many forms as `forms` holds. */
  function VerbLine(forms: seq<string>, translations: seq<string>): string {
    DashLine(Join(forms, ","), Join(translations, ", "))
  }

  /** The forms come back as written, an empty form as `Some("")` and a form not
      written at all as `None`. */
  lemma VerbLineRoundTrip(forms: seq<string>, translations: seq<string>)
    requires FormList(forms) && AllPlain(translations)
    ensures ParseVerbLine(VerbLine(forms, translations))
         == Some(VerbDraft(forms[0], Nth(forms, 1), Nth(forms, 2), Nth(forms, 3),
                           translations, None, None))
  {
    FormsLineSides(forms, translations);
    CommaListRoundTrip(translations);
  }

  /** An adjective written as `base,neuter,plural – translations`. */
  function AdjectiveLine(forms: seq<string>, translations: seq<string>): string {
    DashLine(Join(forms, ","), Join(translations, ", "))
  }

  lemma AdjectiveLineRoundTrip(forms: seq<string>, translations: seq<string>)
    requires FormList(forms) && AllPlain(translations)
    ensures ParseAdjectiveLine(AdjectiveLine(forms, translations))
         == Some(AdjectiveDraft(forms[0], Nth(forms, 1), Nth(forms, 2), translations, None, None))
  {
    FormsLineSides(forms, translations);
    CommaListRoundTrip(translations);
  }

  /** The two sides of a forms line, and the forms read back from the left one. */
  lemma FormsLineSides(forms: seq<string>, translations: seq<string>)
    requires FormList(forms) && AllPlain(translations)
    ensures DashSides(DashLine(Join(forms, ","), Join(translations, ", ")))
         == Some((Join(forms, ","), Join(translations, ", ")))
    ensures CommaList(Join(forms, ",")) == forms
  {
    var left := Join(forms, ",");
    JoinSepStripped(forms, ',');
    if |forms| > 1 {
      assert left == forms[0] + "," + Join(forms[1..], ",");
    }
    JoinAvoids(forms, ",", EnDash);
    JoinStripped(translations, ", ");
    JoinAvoids(translations, ", ", EnDash);
    DashSidesRoundTrip(left, Join(translations, ", "));
    JoinSplit(forms, ',');
    forall k | 0 <= k < |forms| ensures Strip(forms[k]) == forms[k] {
      StrippedIsFixed(forms[k]);
    }
  }

  /** Lines joined with newlines come back from `Lines` one by one. */
  lemma LinesRoundTrip(lines: seq<string>)
    requires |lines| >= 1
    requires forall k :: 0 <= k < |lines| ==> lines[k] != [] && Stripped(lines[k]) && '\n' !in lines[k]
    ensures Lines(Join(lines, "\n")) == lines
  {
    JoinStripped(lines, "\n");
    StrippedIsFixed(Join(lines, "\n"));
    JoinSplit(lines, '\n');
  }

  /** Parsing a concatenation parses each part, in order. */
  lemma {:induction false} ParsedAppend<L, D>(a: seq<L>, b: seq<L>, parse: L -> Option<D>)
    ensures Parsed(a + b, parse) == Parsed(a, parse) + Parsed(b, parse)
    decreases |b|
  {
    if |b| == 0 {
      assert a + b == a;
    } else {
      var init := b[..|b| - 1];
      ParsedAppend(a, init, parse);
      assert (a + b)[..|a + b| - 1] == a + init;
      assert (a + b)[|a + b| - 1] == b[|b| - 1];
    }
  }

  /** A rejected line or row contributes nothing, and the others keep their order. */
  lemma RejectedItemSkipped<L, D>(a: seq<L>, x: L, b: seq<L>, parse: L -> Option<D>)
    requires parse(x).None?
    ensures Parsed(a + [x] + b, parse) == Parsed(a + b, parse)
  {
    var ax := a + [x];
    ParsedAppend(a, [x], parse);
    ParsedNone([x], parse);
    assert Parsed(ax, parse) == Parsed(a, parse);
    ParsedAppend(ax, b, parse);
    ParsedAppend(a, b, parse);
  }

  lemma ParsedNone<L, D>(items: seq<L>, parse: L -> Option<D>)
    requires |items| == 1 && parse(items[0]).None?
    ensures Parsed(items, parse) == []
  {
    assert items[..0] == [];
  }

  /** Every item parses, so every item yields its draft. */
  lemma {:induction false} ParsedAll<L, D>(items: seq<L>, parse: L -> Option<D>, drafts: seq<D>)
    requires |items| == |drafts|
    requires forall k :: 0 <= k < |items| ==> parse(items[k]) == Some(drafts[k])
    ensures Parsed(items, parse) == drafts
    decreases |items|
  {
    if |items| > 0 {
      var n := |items| - 1;
      ParsedAll(items[..n], parse, drafts[..n]);
      assert drafts == drafts[..n] + [drafts[n]];
    }
  }

  function NounText(drafts: seq<NounDraft>): string {
    Join(seq(|drafts|, k requires 0 <= k < |drafts| => NounLine(drafts[k])), "\n")
  }

  lemma NounLineShape(d: NounDraft)
    requires TextNoun(d)
    ensures NounLine(d) != [] && Stripped(NounLine(d)) && '\n' !in NounLine(d)
  {
    NounLeftSide(d);
    var right := Join(d.translations, ", ");
    JoinStripped(d.translations, ", ");
    JoinAvoids(d.translations, ", ", '\n');
    assert NounLine(d) == (d.article + " " + d.word + " " + [EnDash] + " ") + right;
  }

  /** The noun text import of a list of nouns written one per line yields exactly
      those nouns, in order. */
  lemma NounTextRoundTrip(drafts: seq<NounDraft>)
    requires |drafts| >= 1 && forall k :: 0 <= k < |drafts| ==> TextNoun(drafts[k])
    ensures Parsed(Lines(NounText(drafts)), ParseNounLine) == drafts
  {
    var lines := seq(|drafts|, k requires 0 <= k < |drafts| => NounLine(drafts[k]));
    forall k | 0 <= k < |drafts|
      ensures lines[k] != [] && Stripped(lines[k]) && '\n' !in lines[k]
      ensures ParseNounLine(lines[k]) == Some(drafts[k])
    {
      NounLineShape(drafts[k]);
      NounLineRoundTrip(drafts[k]);
    }
    LinesRoundTrip(lines);
    ParsedAll(lines, ParseNounLine, drafts);
  }

  /** The cell a CSV writer puts for an optional column. */
  function Cell(o: Option<string>): string {
    if o.Some? then o.value else []
  }

  predicate PlainOpt(o: Option<string>) {
    o.None? || (o.value != [] && Stripped(o.value))
  }

  lemma OptColRoundTrip(row: Row, key: string, o: Option<string>)
    requires key in row && row[key] == Cell(o) && PlainOpt(o)
    ensures OptCol(row, key) == o
  {
    if o.Some? {
      StrippedIsFixed(o.value);
    }
  }

  /** Translations written with `|` between them come back one by one, commas
      inside a translation included; a single translation is written alone, and
      then it must hold no comma, which would split it. */
  lemma SplitTranslationsRoundTrip(translations: seq<string>)
    requires |translations| >= 1
    requires forall k :: 0 <= k < |translations| ==> Stripped(translations[k]) && '|' !in translations[k]
    requires |translations| == 1 ==> ',' !in translations[0]
    ensures Strip(Join(translations, "|")) == Join(translations, "|")
    ensures SplitTranslations(Join(translations, "|")) == translations
  {
    var s := Join(translations, "|");
    JoinSepStripped(translations, '|');
    StrippedIsFixed(s);
    if |translations| == 1 {
      StrippedIsFixed(translations[0]);
      NoSepSplit(s, ',');
    } else {
      PipeCellSplit(translations);
    }
  }

  /** Two or more translations: the cell holds `|`, and splitting on it gives them back. */
  lemma PipeCellSplit(translations: seq<string>)
    requires |translations| >= 2
    requires forall k :: 0 <= k < |translations| ==> Stripped(translations[k]) && '|' !in translations[k]
    ensures SplitTranslations(Join(translations, "|")) == translations
  {
    var s := Join(translations, "|");
    assert s[|translations[0]|] == '|';
    JoinSplit(translations, '|');
    forall k | 0 <= k < |translations|
      ensures Strip(translations[k]) == translations[k]
    {
      StrippedIsFixed(translations[k]);
    }
  }

  /** A cell without `|` is split on commas: translations written with `, `
      between them come back one by one, empty ones included. */
  lemma SplitTranslationsCommaRoundTrip(translations: seq<string>)
    requires |translations| >= 1
    requires forall k :: 0 <= k < |translations| ==>
               Stripped(translations[k]) && ',' !in translations[k] && '|' !in translations[k]
    ensures SplitTranslations(Join(translations, ", ")) == translations
  {
    JoinAvoids(translations, ", ", '|');
    CommaListRoundTrip(translations);
  }

  function NounRow(d: NounDraft): Row {
    map["article" := d.article, "word" := d.word, "translations" := Join(d.translations, "|"),
        "definite" := Cell(d.definite), "plural" := Cell(d.plural)]
  }

  lemma NounRowRoundTrip(d: NounDraft)
    requires d.article in Articles && d.word != [] && Stripped(d.word)
    requires AllPlain(d.translations) && PlainOpt(d.definite) && PlainOpt(d.plural)
    ensures ParseNounRow(NounRow(d)) == Some(d)
  {
    NounRowCells(d);
    SplitTranslationsRoundTrip(d.translations);
  }

  /** The columns `ParseNounRow` reads from a row written from `d`. */
  lemma NounRowCells(d: NounDraft)
    requires d.article in Articles && d.word != [] && Stripped(d.word)
    requires AllPlain(d.translations) && PlainOpt(d.definite) && PlainOpt(d.plural)
    ensures Col(NounRow(d), "article") == d.article && Col(NounRow(d), "word") == d.word
    ensures Col(NounRow(d), "translations") == Join(d.translations, "|")
    ensures OptCol(NounRow(d), "definite") == d.definite
    ensures OptCol(NounRow(d), "plural") == d.plural
  {
    var row := NounRow(d);
    assert d.article == "en" || d.article == "ei" || d.article == "et";
    StrippedIsFixed(d.article);
    StrippedIsFixed(d.word);
    SplitTranslationsRoundTrip(d.translations);
    OptColRoundTrip(row, "definite", d.definite);
    OptColRoundTrip(row, "plural", d.plural);
  }

  function VerbRow(d: VerbDraft): Row {
    map["infinitive" := d.infinitive, "presens" := Cell(d.presens),
        "preteritum" := Cell(d.preteritum), "perfect" := Cell(d.perfect),
        "translation" := Join(d.translations, "|"), "group" := Cell(d.group),
        "group_description" := Cell(d.groupDescription)]
  }

  lemma VerbRowRoundTrip(d: VerbDraft)
    requires d.infinitive != [] && Stripped(d.infinitive) && AllPlain(d.translations)
    requires PlainOpt(d.presens) && PlainOpt(d.preteritum) && PlainOpt(d.perfect)
    requires PlainOpt(d.group) && PlainOpt(d.groupDescription)
    ensures ParseVerbRow(VerbRow(d)) == Some(d)
  {
    VerbRowCells(d);
    SplitTranslationsRoundTrip(d.translations);
  }

  /** The columns `ParseVerbRow` reads from a row written from `d`. */
  lemma VerbRowCells(d: VerbDraft)
    requires d.infinitive != [] && Stripped(d.infinitive) && AllPlain(d.translations)
    requires PlainOpt(d.presens) && PlainOpt(d.preteritum) && PlainOpt(d.perfect)
    requires PlainOpt(d.group) && PlainOpt(d.groupDescription)
    ensures Col(VerbRow(d), "infinitive") == d.infinitive
    ensures Col(VerbRow(d), "translation") == Join(d.translations, "|")
    ensures OptCol(VerbRow(d), "presens") == d.presens
    ensures OptCol(VerbRow(d), "preteritum") == d.preteritum
    ensures OptCol(VerbRow(d), "perfect") == d.perfect
    ensures OptCol(VerbRow(d), "group") == d.group
    ensures OptCol(VerbRow(d), "group_description") == d.groupDescription
  {
    var row := VerbRow(d);
    StrippedIsFixed(d.infinitive);
    SplitTranslationsRoundTrip(d.translations);
    OptColRoundTrip(row, "presens", d.presens);
    OptColRoundTrip(row, "preteritum", d.preteritum);
    OptColRoundTrip(row, "perfect", d.perfect);
    OptColRoundTrip(row, "group", d.group);
    OptColRoundTrip(row, "group_description", d.groupDescription);
  }

  function AdjectiveRow(d: AdjectiveDraft): Row {
    map["base" := d.base, "neuter" := Cell(d.neuter), "plural" := Cell(d.plural),
        "translation" := Join(d.translations, "|"), "group" := Cell(d.group),
        "group_description" := Cell(d.groupDescription)]
  }

  lemma AdjectiveRowRoundTrip(d: AdjectiveDraft)
    requires d.base != [] && Stripped(d.base) && AllPlain(d.translations)
    requires PlainOpt(d.neuter) && PlainOpt(d.plural)
    requires PlainOpt(d.group) && PlainOpt(d.groupDescription)
    ensures ParseAdjectiveRow(AdjectiveRow(d)) == Some(d)
  {
    AdjectiveRowCells(d);
    SplitTranslationsRoundTrip(d.translations);
  }

  /** The columns `ParseAdjectiveRow` reads from a row written from `d`. */
  lemma AdjectiveRowCells(d: AdjectiveDraft)
    requires d.base != [] && Stripped(d.base) && AllPlain(d.translations)
    requires PlainOpt(d.neuter) && PlainOpt(d.plural)
    requires PlainOpt(d.group) && PlainOpt(d.groupDescription)
    ensures Col(AdjectiveRow(d), "base") == d.base
    ensures Col(AdjectiveRow(d), "translation") == Join(d.translations, "|")
    ensures OptCol(AdjectiveRow(d), "neuter") == d.neuter
    ensures OptCol(AdjectiveRow(d), "plural") == d.plural
    ensures OptCol(AdjectiveRow(d), "group") == d.group
    ensures OptCol(AdjectiveRow(d), "group_description") == d.groupDescription
  {
    var row := AdjectiveRow(d);
    StrippedIsFixed(d.base);
    SplitTranslationsRoundTrip(d.translations);
    OptColRoundTrip(row, "neuter", d.neuter);
    OptColRoundTrip(row, "plural", d.plural);
    OptColRoundTrip(row, "group", d.group);
    OptColRoundTrip(row, "group_description", d.groupDescription);
  }

  /** Unlike the verb and adjective rows, a noun row with a blank translations cell
      is kept, with the one translation `""`. */
  lemma BlankNounTranslationsKept(row: Row)
    requires Col(row, "article") in Articles && Col(row, "word") != []
    requires Col(row, "translations") == []
    ensures ParseNounRow(row).Some? && ParseNounRow(row).value.translations == [""]
  {
    assert Split([], ',') == [[]];
    assert Strip([]) == [];
  }

  // ----------------------------------------------------------- import loops

  /** The store after `drafts` were handed to `create_noun` in order, starting from a table
      `start` whose keys were `known`: still valid, its nouns keys those known plus the
      drafts', and `start` followed by one noun made from each draft with a new (article, word). */
  ghost predicate NounsImported(store: Crud.Store, start: seq<Noun>, known: set<(string, string)>, drafts: seq<NounDraft>)
    reads store
  {
    && store.Valid()
    && store.NounKeys() == known + DraftKeys(drafts, NounDraftKey)
    && Extends(start, store.nouns, NewDrafts(known, drafts, NounDraftKey), NounMadeFrom)
  }

  /** One draft handed to `create_noun`; `added` tells whether a noun was stored. */
  method AddNoun(store: Crud.Store, d: NounDraft, ghost start: seq<Noun>, ghost known: set<(string, string)>,
              ghost drafts: seq<NounDraft>) returns (added: bool)
    requires NounsImported(store, start, known, drafts)
    modifies store
    ensures NounsImported(store, start, known, drafts + [d])
    ensures added <==> NounDraftKey(d) !in known + DraftKeys(drafts, NounDraftKey)
    ensures |NewDrafts(known, drafts + [d], NounDraftKey)| == |NewDrafts(known, drafts, NounDraftKey)| + (if added then 1 else 0)
    ensures store.verbs == old(store.verbs) && store.adjectives == old(store.adjectives)
    ensures store.lessons == old(store.lessons)
  {
    ghost var before := store.nouns;
    var r := store.CreateNoun(d.article, d.word, d.translations, d.definite, d.plural, None, None);
    ImportStep(known, drafts, d, NounDraftKey, NounMadeFrom, start, before, store.nouns, r);
    added := r.Some?;
  }

  /** The create loop of the noun imports: each parsed draft handed to the store in order;
      `added` counts the drafts that stored a noun. */
  method AddNouns(store: Crud.Store, drafts: seq<NounDraft>) returns (added: nat)
    requires store.Valid()
    modifies store
    ensures NounsImported(store, old(store.nouns), old(store.NounKeys()), drafts)
    ensures added == |NewDrafts(old(store.NounKeys()), drafts, NounDraftKey)|
    ensures store.verbs == old(store.verbs) && store.adjectives == old(store.adjectives)
    ensures store.lessons == old(store.lessons)
  {
    ghost var start, known := store.nouns, store.NounKeys();
    ghost var done: seq<NounDraft> := [];
    added := 0;
    var i := 0;
    while i < |drafts|
      invariant 0 <= i <= |drafts| && done == drafts[..i]
      invariant NounsImported(store, start, known, done)
      invariant added == |NewDrafts(known, done, NounDraftKey)|
      invariant store.verbs == old(store.verbs) && store.adjectives == old(store.adjectives)
      invariant store.lessons == old(store.lessons)
    {
      var result := AddNoun(store, drafts[i], start, known, done);
      if result {
        added := added + 1;
      }
      done := done + [drafts[i]];
      TakeOneMore(drafts, i);
      i := i + 1;
    }
    assert drafts[..i] == drafts;
  }

  /** The store after `drafts` were handed to `create_verb` in order, starting from a table
      `start` whose keys were `known`: still valid, its verbs keys those known plus the
      drafts', and `start` followed by one verb made from each draft with a new infinitive. */
  ghost predicate VerbsImported(store: Crud.Store, start: seq<Verb>, known: set<string>, drafts: seq<VerbDraft>)
    reads store
  {
    && store.Valid()
    && store.VerbKeys() == known + DraftKeys(drafts, VerbDraftKey)
    && Extends(start, store.verbs, NewDrafts(known, drafts, VerbDraftKey), VerbMadeFrom)
  }

  /** One draft handed to `create_verb`; `added` tells whether a verb was stored. */
  method AddVerb(store: Crud.Store, d: VerbDraft, ghost start: seq<Verb>, ghost known: set<string>,
              ghost drafts: seq<VerbDraft>) returns (added: bool)
    requires VerbsImported(store, start, known, drafts)
    modifies store
    ensures VerbsImported(store, start, known, drafts + [d])
    ensures added <==> VerbDraftKey(d) !in known + DraftKeys(drafts, VerbDraftKey)
    ensures |NewDrafts(known, drafts + [d], VerbDraftKey)| == |NewDrafts(known, drafts, VerbDraftKey)| + (if added then 1 else 0)
    ensures store.nouns == old(store.nouns) && store.adjectives == old(store.adjectives)
    ensures store.lessons == old(store.lessons)
  {
    ghost var before := store.verbs;
    var r := store.CreateVerb(d.infinitive, d.translations, d.presens, d.preteritum, d.perfect,
                              d.group, d.groupDescription, None, None);
    ImportStep(known, drafts, d, VerbDraftKey, VerbMadeFrom, start, before, store.verbs, r);
    added := r.Some?;
  }

  /** The create loop of the verb imports: each parsed draft handed to the store in order;
      `added` counts the drafts that stored a verb. */
  method AddVerbs(store: Crud.Store, drafts: seq<VerbDraft>) returns (added: nat)
    requires store.Valid()
    modifies store
    ensures VerbsImported(store, old(store.verbs), old(store.VerbKeys()), drafts)
    ensures added == |NewDrafts(old(store.VerbKeys()), drafts, VerbDraftKey)|
    ensures store.nouns == old(store.nouns) && store.adjectives == old(store.adjectives)
    ensures store.lessons == old(store.lessons)
  {
    ghost var start, known := store.verbs, store.VerbKeys();
    ghost var done: seq<VerbDraft> := [];
    added := 0;
    var i := 0;
    while i < |drafts|
      invariant 0 <= i <= |drafts| && done == drafts[..i]
      invariant VerbsImported(store, start, known, done)
      invariant added == |NewDrafts(known, done, VerbDraftKey)|
      invariant store.nouns == old(store.nouns) && store.adjectives == old(store.adjectives)
      invariant store.lessons == old(store.lessons)
    {
      var result := AddVerb(store, drafts[i], start, known, done);
      if result {
        added := added + 1;
      }
      done := done + [drafts[i]];
      TakeOneMore(drafts, i);
      i := i + 1;
    }
    assert drafts[..i] == drafts;
  }

  /** The store after `drafts` were handed to `create_adjective` in order, starting from a table
      `start` whose keys were `known`: still valid, its adjectives keys those known plus the
      drafts', and `start` followed by one adjective made from each draft with a new base. */
  ghost predicate AdjectivesImported(store: Crud.Store, start: seq<Adjective>, known: set<string>, drafts: seq<AdjectiveDraft>)
    reads store
  {
    && store.Valid()
    && store.AdjectiveKeys() == known + DraftKeys(drafts, AdjectiveDraftKey)
    && Extends(start, store.adjectives, NewDrafts(known, drafts, AdjectiveDraftKey), AdjectiveMadeFrom)
  }

  /** One draft handed to `create_adjective`; `added` tells whether a adjective was stored. */
  method AddAdjective(store: Crud.Store, d: AdjectiveDraft, ghost start: seq<Adjective>, ghost known: set<string>,
              ghost drafts: seq<AdjectiveDraft>) returns (added: bool)
    requires AdjectivesImported(store, start, known, drafts)
    modifies store
    ensures AdjectivesImported(store, start, known, drafts + [d])
    ensures added <==> AdjectiveDraftKey(d) !in known + DraftKeys(drafts, AdjectiveDraftKey)
    ensures |NewDrafts(known, drafts + [d], AdjectiveDraftKey)| == |NewDrafts(known, drafts, AdjectiveDraftKey)| + (if added then 1 else 0)
    ensures store.nouns == old(store.nouns) && store.verbs == old(store.verbs)
    ensures store.lessons == old(store.lessons)
  {
    ghost var before := store.adjectives;
    var r := store.CreateAdjective(d.base, d.translations, d.neuter, d.plural, None, None,
                                   d.group, d.groupDescription, None, None);
    ImportStep(known, drafts, d, AdjectiveDraftKey, AdjectiveMadeFrom, start, before, store.adjectives, r);
    added := r.Some?;
  }

  /** The create loop of the adjective imports: each parsed draft handed to the store in order;
      `added` counts the drafts that stored an adjective. */
  method AddAdjectives(store: Crud.Store, drafts: seq<AdjectiveDraft>) returns (added: nat)
    requires store.Valid()
    modifies store
    ensures AdjectivesImported(store, old(store.adjectives), old(store.AdjectiveKeys()), drafts)
    ensures added == |NewDrafts(old(store.AdjectiveKeys()), drafts, AdjectiveDraftKey)|
    ensures store.nouns == old(store.nouns) && store.verbs == old(store.verbs)
    ensures store.lessons == old(store.lessons)
  {
    ghost var start, known := store.adjectives, store.AdjectiveKeys();
    ghost var done: seq<AdjectiveDraft> := [];
    added := 0;
    var i := 0;
    while i < |drafts|
      invariant 0 <= i <= |drafts| && done == drafts[..i]
      invariant AdjectivesImported(store, start, known, done)
      invariant added == |NewDrafts(known, done, AdjectiveDraftKey)|
      invariant store.nouns == old(store.nouns) && store.verbs == old(store.verbs)
      invariant store.lessons == old(store.lessons)
    {
      var result := AddAdjective(store, drafts[i], start, known, done);
      if result {
        added := added + 1;
      }
      done := done + [drafts[i]];
      TakeOneMore(drafts, i);
      i := i + 1;
    }
    assert drafts[..i] == drafts;
  }

  /** `import_nouns_text`: every accepted line is counted, duplicates included, and the
      nouns table gains one noun for each accepted line whose (article, word) is new, in line order. */
  method ImportNounsText(store: Crud.Store, textData: string) returns (count: nat)
    requires store.Valid()
    modifies store
    ensures count == |Parsed(Lines(textData), ParseNounLine)|
    ensures NounsImported(store, old(store.nouns), old(store.NounKeys()), Parsed(Lines(textData), ParseNounLine))
    ensures store.verbs == old(store.verbs) && store.adjectives == old(store.adjectives)
    ensures store.lessons == old(store.lessons)
  {
    var drafts := Parsed(Split(Strip(textData), '\n'), ParseNounLine);
    var _ := AddNouns(store, drafts);
    count := |drafts|;
  }

  /** `import_verbs_text`: every accepted line is counted, duplicates included, and the
      verbs table gains one verb for each accepted line whose infinitive is new, in line order. */
  method ImportVerbsText(store: Crud.Store, textData: string) returns (count: nat)
    requires store.Valid()
    modifies store
    ensures count == |Parsed(Lines(textData), ParseVerbLine)|
    ensures VerbsImported(store, old(store.verbs), old(store.VerbKeys()), Parsed(Lines(textData), ParseVerbLine))
    ensures store.nouns == old(store.nouns) && store.adjectives == old(store.adjectives)
    ensures store.lessons == old(store.lessons)
  {
    var drafts := Parsed(Split(Strip(textData), '\n'), ParseVerbLine);
    var _ := AddVerbs(store, drafts);
    count := |drafts|;
  }

  /** `import_adjectives_text`: every accepted line is counted, duplicates included, and the
      adjectives table gains one adjective for each accepted line whose base is new, in line order. */
  method ImportAdjectivesText(store: Crud.Store, textData: string) returns (count: nat)
    requires store.Valid()
    modifies store
    ensures count == |Parsed(Lines(textData), ParseAdjectiveLine)|
    ensures AdjectivesImported(store, old(store.adjectives), old(store.AdjectiveKeys()), Parsed(Lines(textData), ParseAdjectiveLine))
    ensures store.nouns == old(store.nouns) && store.verbs == old(store.verbs)
    ensures store.lessons == old(store.lessons)
  {
    var drafts := Parsed(Split(Strip(textData), '\n'), ParseAdjectiveLine);
    var _ := AddAdjectives(store, drafts);
    count := |drafts|;
  }

  /** `import_nouns_csv`: `added` counts the rows that stored a noun and `skipped` the
      accepted rows whose (article, word) was already taken; rejected rows count as neither. */
  method ImportNounsCsv(store: Crud.Store, rows: seq<Row>) returns (added: nat, skipped: nat)
    requires store.Valid()
    modifies store
    ensures added == |NewDrafts(old(store.NounKeys()), Parsed(rows, ParseNounRow), NounDraftKey)|
    ensures added + skipped == |Parsed(rows, ParseNounRow)|
    ensures NounsImported(store, old(store.nouns), old(store.NounKeys()), Parsed(rows, ParseNounRow))
    ensures store.verbs == old(store.verbs) && store.adjectives == old(store.adjectives)
    ensures store.lessons == old(store.lessons)
  {
    var drafts := Parsed(rows, ParseNounRow);
    added := AddNouns(store, drafts);
    skipped := |drafts| - added;
  }

  /** `import_verbs_csv`: `added` counts the rows that stored a verb and `skipped` the
      accepted rows whose infinitive was already taken; rejected rows count as neither. */
  method ImportVerbsCsv(store: Crud.Store, rows: seq<Row>) returns (added: nat, skipped: nat)
    requires store.Valid()
    modifies store
    ensures added == |NewDrafts(old(store.VerbKeys()), Parsed(rows, ParseVerbRow), VerbDraftKey)|
    ensures added + skipped == |Parsed(rows, ParseVerbRow)|
    ensures VerbsImported(store, old(store.verbs), old(store.VerbKeys()), Parsed(rows, ParseVerbRow))
    ensures store.nouns == old(store.nouns) && store.adjectives == old(store.adjectives)
    ensures store.lessons == old(store.lessons)
  {
    var drafts := Parsed(rows, ParseVerbRow);
    added := AddVerbs(store, drafts);
    skipped := |drafts| - added;
  }

  /** `import_adjectives_csv`: `added` counts the rows that stored an adjective and `skipped` the
      accepted rows whose base was already taken; rejected rows count as neither. */
  method ImportAdjectivesCsv(store: Crud.Store, rows: seq<Row>) returns (added: nat, skipped: nat)
    requires store.Valid()
    modifies store
    ensures added == |NewDrafts(old(store.AdjectiveKeys()), Parsed(rows, ParseAdjectiveRow), AdjectiveDraftKey)|
    ensures added + skipped == |Parsed(rows, ParseAdjectiveRow)|
    ensures AdjectivesImported(store, old(store.adjectives), old(store.AdjectiveKeys()), Parsed(rows, ParseAdjectiveRow))
    ensures store.nouns == old(store.nouns) && store.verbs == old(store.verbs)
    ensures store.lessons == old(store.lessons)
  {
    var drafts := Parsed(rows, ParseAdjectiveRow);
    added := AddAdjectives(store, drafts);
    skipped := |drafts| - added;
  }
}
