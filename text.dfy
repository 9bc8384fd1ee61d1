/** String primitives of Python's `str` that the handlers rely on:
    `lower`, `strip`, `split(sep)`, `split(None, 1)`, `isdigit`, `int`
    and `in` (substring containment), written over `seq<char>`. */
module Text {

  /** `str.lower()` on one character, for the upper-case ranges this
      application meets: ASCII, Latin-1 (Æ, Ø, Å ...) and Cyrillic. */
  function LowerChar(c: char): char {
    if 'A' <= c <= 'Z' then ((c as int) + 32) as char
    else if '\U{C0}' <= c <= '\U{DE}' && c != '\U{D7}' then ((c as int) + 32) as char
    else if '\U{410}' <= c <= '\U{42F}' then ((c as int) + 32) as char
    else if '\U{400}' <= c <= '\U{40F}' then ((c as int) + 80) as char
    else c
  }

  /** `str.lower()`: character by character. */
  function Lower(s: string): (r: string)
    ensures |r| == |s|
    ensures forall i :: 0 <= i < |s| ==> r[i] == LowerChar(s[i])
  {
    seq(|s|, i requires 0 <= i < |s| => LowerChar(s[i]))
  }

  /** Lower-casing twice is lower-casing once. */
  lemma LowerIdempotent(s: string)
    ensures Lower(Lower(s)) == Lower(s)
  {
    assert forall i :: 0 <= i < |s| ==> LowerChar(LowerChar(s[i])) == LowerChar(s[i]);
  }

  /** Lower-casing neither makes nor removes white space. */
  lemma LowerKeepsSpace(c: char)
    ensures IsSpace(LowerChar(c)) <==> IsSpace(c)
  {
  }

  /** White space lower-cases to itself. */
  lemma LowerSpaces(s: string)
    requires AllSpace(s)
    ensures Lower(s) == s
  {
  }

  lemma LowerAppend(a: string, b: string)
    ensures Lower(a + b) == Lower(a) + Lower(b)
  {
  }

  /** The characters Python's `str.isspace()`, `strip()` and `split()` treat as white space. */
  predicate IsSpace(c: char) {
    c == ' ' || c == '\t' || c == '\n' || c == '\r' || c == '\U{0B}' || c == '\U{0C}'
    || ('\U{1C}' <= c <= '\U{1F}') || c == '\U{85}' || c == '\U{A0}' || c == '\U{1680}'
    || ('\U{2000}' <= c <= '\U{200A}') || c == '\U{2028}' || c == '\U{2029}'
    || c == '\U{202F}' || c == '\U{205F}' || c == '\U{3000}'
  }

  predicate AllSpace(s: string) {
    forall i :: 0 <= i < |s| ==> IsSpace(s[i])
  }

  /** A string `strip()` leaves as it is. */
  predicate Stripped(s: string) {
    s == [] || (!IsSpace(s[0]) && !IsSpace(s[|s| - 1]))
  }

  function LStrip(s: string): (r: string)
    decreases |s|
  {
    if |s| > 0 && IsSpace(s[0]) then LStrip(s[1..]) else s
  }

  function RStrip(s: string): (r: string)
    decreases |s|
  {
    if |s| > 0 && IsSpace(s[|s| - 1]) then RStrip(s[..|s| - 1]) else s
  }

  /** `str.strip()`. */
  function Strip(s: string): string {
    RStrip(LStrip(s))
  }

  /** `x.lower().strip()`, the comparison form used by the answer checks and by search. */
  function Norm(s: string): string {
    Strip(Lower(s))
  }

  /** `lstrip()` drops a white-space prefix and stops at a non-space character. */
  lemma {:induction false} LStripShape(s: string)
    ensures |LStrip(s)| <= |s|
    ensures LStrip(s) == [] || !IsSpace(LStrip(s)[0])
    ensures LStrip(s) == s[|s| - |LStrip(s)|..]
    ensures AllSpace(s[..|s| - |LStrip(s)|])
    decreases |s|
  {
    if |s| > 0 && IsSpace(s[0]) {
      LStripShape(s[1..]);
      var k := |s| - |LStrip(s)|;
      assert s[1..][k - 1..] == s[k..];
      forall i | 0 <= i < k ensures IsSpace(s[..k][i]) {
        if i > 0 { assert s[..k][i] == s[1..][..k - 1][i - 1]; }
      }
    }
  }

  /** `rstrip()` drops a white-space suffix and stops at a non-space character. */
  lemma {:induction false} RStripShape(s: string)
    ensures |RStrip(s)| <= |s|
    ensures RStrip(s) == [] || !IsSpace(RStrip(s)[|RStrip(s)| - 1])
    ensures RStrip(s) == s[..|RStrip(s)|]
    ensures AllSpace(s[|RStrip(s)|..])
    ensures RStrip(s) == [] ==> AllSpace(s)
    decreases |s|
  {
    if |s| > 0 && IsSpace(s[|s| - 1]) {
      var s' := s[..|s| - 1];
      RStripShape(s');
      var k := |RStrip(s)|;
      assert s'[..k] == s[..k];
      forall i | 0 <= i < |s| - k ensures IsSpace(s[k..][i]) {
        if i < |s| - 1 - k { assert s[k..][i] == s'[k..][i]; }
      }
      if RStrip(s) == [] {
        forall i | 0 <= i < |s| ensures IsSpace(s[i]) {
          assert s[i] == s[k..][i];
        }
      }
    }
  }

  /** What `strip()` returns is stripped. */
  lemma StripShape(s: string)
    ensures Stripped(Strip(s))
  {
    var t := LStrip(s);
    LStripShape(s);
    RStripShape(t);
    var r := RStrip(t);
    if r != [] {
      assert r[0] == t[0];
    }
  }

  lemma {:induction false} LStripPadded(pre: string, t: string)
    requires AllSpace(pre)
    requires t == [] || !IsSpace(t[0])
    ensures LStrip(pre + t) == t
    decreases |pre|
  {
    if |pre| == 0 {
      assert pre + t == t;
    } else {
      assert (pre + t)[1..] == pre[1..] + t;
      LStripPadded(pre[1..], t);
    }
  }

  lemma {:induction false} RStripPadded(t: string, post: string)
    requires AllSpace(post)
    requires t == [] || !IsSpace(t[|t| - 1])
    ensures RStrip(t + post) == t
    decreases |post|
  {
    if |post| == 0 {
      assert t + post == t;
    } else {
      var p' := post[..|post| - 1];
      assert (t + post)[..|t + post| - 1] == t + p';
      RStripPadded(t, p');
    }
  }

  /** `strip()` takes back exactly the white space put around a stripped string. */
  lemma StripPadded(pre: string, t: string, post: string)
    requires AllSpace(pre) && AllSpace(post) && Stripped(t)
    ensures Strip(pre + t + post) == t
  {
    if t == [] {
      assert pre + t + post == pre + post;
      AllSpaceLStrip(pre + post);
      assert RStrip([]) == [];
    } else {
      assert pre + t + post == pre + (t + post);
      LStripPadded(pre, t + post);
      RStripPadded(t, post);
    }
  }

  lemma {:induction false} AllSpaceLStrip(s: string)
    requires AllSpace(s)
    ensures LStrip(s) == []
    decreases |s|
  {
    if |s| > 0 { AllSpaceLStrip(s[1..]); }
  }

  lemma StrippedIsFixed(t: string)
    requires Stripped(t)
    ensures Strip(t) == t
  {
    StripPadded([], t, []);
    assert [] + t + [] == t;
  }

  /** A character missing from a string is missing from its stripped form. */
  lemma StripAvoids(s: string, c: char)
    requires c !in s
    ensures c !in Strip(s)
  {
    LStripShape(s);
    RStripShape(LStrip(s));
  }

  /** `strip()` only removes characters: whatever it returns was in its input. */
  lemma StripKeeps(s: string, c: char)
    requires c in Strip(s)
    ensures c in s
  {
    LStripShape(s);
    RStripShape(LStrip(s));
    var i :| 0 <= i < |Strip(s)| && Strip(s)[i] == c;
    assert LStrip(s)[i] == c;
    assert s[|s| - |LStrip(s)| + i] == c;
  }

  lemma {:induction false} LStripSpacePrefix(pre: string, x: string)
    requires AllSpace(pre)
    ensures LStrip(pre + x) == LStrip(x)
    decreases |pre|
  {
    if |pre| == 0 {
      assert pre + x == x;
    } else {
      assert (pre + x)[1..] == pre[1..] + x;
      LStripSpacePrefix(pre[1..], x);
    }
  }

  lemma {:induction false} RStripSpaceSuffix(x: string, post: string)
    requires AllSpace(post)
    ensures RStrip(x + post) == RStrip(x)
    decreases |post|
  {
    if |post| == 0 {
      assert x + post == x;
    } else {
      var p' := post[..|post| - 1];
      assert (x + post)[..|x + post| - 1] == x + p';
      RStripSpaceSuffix(x, p');
    }
  }

  lemma {:induction false} LStripAppend(s: string, post: string)
    requires LStrip(s) != []
    ensures LStrip(s + post) == LStrip(s) + post
    decreases |s|
  {
    assert |s| > 0;
    if IsSpace(s[0]) {
      assert (s + post)[1..] == s[1..] + post;
      LStripAppend(s[1..], post);
    }
  }

  /** White space added around a string does not change what `strip()` gives. */
  lemma StripAround(pre: string, s: string, post: string)
    requires AllSpace(pre) && AllSpace(post)
    ensures Strip(pre + s + post) == Strip(s)
  {
    assert pre + s + post == pre + (s + post);
    LStripSpacePrefix(pre, s + post);
    if LStrip(s) != [] {
      LStripAppend(s, post);
      RStripSpaceSuffix(LStrip(s), post);
    } else {
      LStripShape(s);
      assert s == s[..|s|];
      assert AllSpace(s + post) by {
        forall k | 0 <= k < |s + post| ensures IsSpace((s + post)[k]) {
          if k >= |s| { assert (s + post)[k] == post[k - |s|]; }
          else { assert (s + post)[k] == s[k]; }
        }
      }
      AllSpaceLStrip(s + post);
    }
  }

  lemma {:induction false} LStripLower(s: string)
    ensures LStrip(Lower(s)) == Lower(LStrip(s))
    decreases |s|
  {
    if |s| > 0 {
      LowerKeepsSpace(s[0]);
      assert Lower(s)[1..] == Lower(s[1..]);
      LStripLower(s[1..]);
    }
  }

  lemma {:induction false} RStripLower(s: string)
    ensures RStrip(Lower(s)) == Lower(RStrip(s))
    decreases |s|
  {
    if |s| > 0 {
      LowerKeepsSpace(s[|s| - 1]);
      assert Lower(s)[..|s| - 1] == Lower(s[..|s| - 1]);
      RStripLower(s[..|s| - 1]);
    }
  }

  /** `s.lower().strip() == s.strip().lower()`. */
  lemma StripLower(s: string)
    ensures Strip(Lower(s)) == Lower(Strip(s))
  {
    LStripLower(s);
    RStripLower(LStrip(s));
  }

  /** Python's `sep.join(parts)`. */
  function Join(parts: seq<string>, sep: string): string
    decreases |parts|
  {
    if |parts| == 0 then []
    else if |parts| == 1 then parts[0]
    else parts[0] + sep + Join(parts[1..], sep)
  }

  /** A character found in no part and not in the separator is not in the join. */
  lemma {:induction false} JoinAvoids(parts: seq<string>, sep: string, c: char)
    requires forall k :: 0 <= k < |parts| ==> c !in parts[k]
    requires c !in sep
    ensures c !in Join(parts, sep)
    decreases |parts|
  {
    if |parts| > 1 {
      JoinAvoids(parts[1..], sep, c);
      assert c !in parts[0] + sep;
    }
  }

  /** A join of non-empty parts starts where the first part starts and ends where
      the last part ends. */
  lemma {:induction false} JoinEnds(parts: seq<string>, sep: string)
    requires |parts| >= 1
    requires forall k :: 0 <= k < |parts| ==> parts[k] != []
    ensures |Join(parts, sep)| >= |parts[0]|
    ensures Join(parts, sep)[0] == parts[0][0]
    ensures Join(parts, sep)[|Join(parts, sep)| - 1] == parts[|parts| - 1][|parts[|parts| - 1]| - 1]
    decreases |parts|
  {
    if |parts| > 1 {
      var rest := parts[1..];
      JoinEnds(rest, sep);
      var j := Join(parts, sep);
      assert j == parts[0] + sep + Join(rest, sep);
      assert j[0] == parts[0][0];
      assert j[|j| - 1] == Join(rest, sep)[|Join(rest, sep)| - 1];
      assert rest[|rest| - 1] == parts[|parts| - 1];
    }
  }

  /** Joining stripped, non-empty parts gives a stripped, non-empty string. */
  lemma JoinStripped(parts: seq<string>, sep: string)
    requires |parts| >= 1
    requires forall k :: 0 <= k < |parts| ==> parts[k] != [] && Stripped(parts[k])
    ensures Join(parts, sep) != [] && Stripped(Join(parts, sep))
  {
    JoinEnds(parts, sep);
  }

  /** Joining stripped parts, empty ones included, with a separator that is not
      white space gives a stripped string. */
  lemma {:induction false} JoinSepStripped(parts: seq<string>, sep: char)
    requires !IsSpace(sep)
    requires forall k :: 0 <= k < |parts| ==> Stripped(parts[k])
    ensures Stripped(Join(parts, [sep]))
    decreases |parts|
  {
    if |parts| > 1 {
      var rest := Join(parts[1..], [sep]);
      JoinSepStripped(parts[1..], sep);
      var j := parts[0] + [sep] + rest;
      assert Join(parts, [sep]) == j;
      assert j[0] == if parts[0] == [] then sep else parts[0][0];
      assert j[|j| - 1] == if rest == [] then sep else rest[|rest| - 1];
    }
  }

  /** `s.split(sep)` for a one-character separator: at least one piece, always. */
  function Split(s: string, sep: char): (r: seq<string>)
    ensures |r| >= 1
    decreases |s|
  {
    if |s| == 0 then [[]]
    else
      var rest := Split(s[1..], sep);
      if s[0] == sep then [[]] + rest
      else [[s[0]] + rest[0]] + rest[1..]
  }

  /** The pieces of a split hold no separator, and joining them gives the string back. */
  lemma {:induction false} SplitJoin(s: string, sep: char)
    ensures forall k :: 0 <= k < |Split(s, sep)| ==> sep !in Split(s, sep)[k]
    ensures Join(Split(s, sep), [sep]) == s
    decreases |s|
  {
    if |s| > 0 {
      SplitJoin(s[1..], sep);
      if s[0] == sep {
        SplitJoinAtSep(s, sep);
      } else {
        SplitJoinAtChar(s, sep);
      }
    }
  }

  /** The step of `SplitJoin` for a string that starts with the separator. */
  lemma SplitJoinAtSep(s: string, sep: char)
    requires |s| > 0 && s[0] == sep
    requires forall k :: 0 <= k < |Split(s[1..], sep)| ==> sep !in Split(s[1..], sep)[k]
    requires Join(Split(s[1..], sep), [sep]) == s[1..]
    ensures forall k :: 0 <= k < |Split(s, sep)| ==> sep !in Split(s, sep)[k]
    ensures Join(Split(s, sep), [sep]) == s
  {
    var rest := Split(s[1..], sep);
    assert Split(s, sep) == [[]] + rest;
    assert Join([[]] + rest, [sep]) == [] + [sep] + Join(rest, [sep]) by {
      assert ([[]] + rest)[1..] == rest;
    }
    assert s == [s[0]] + s[1..];
  }

  /** The step of `SplitJoin` for a string that starts with another character. */
  lemma SplitJoinAtChar(s: string, sep: char)
    requires |s| > 0 && s[0] != sep
    requires forall k :: 0 <= k < |Split(s[1..], sep)| ==> sep !in Split(s[1..], sep)[k]
    requires Join(Split(s[1..], sep), [sep]) == s[1..]
    ensures forall k :: 0 <= k < |Split(s, sep)| ==> sep !in Split(s, sep)[k]
    ensures Join(Split(s, sep), [sep]) == s
  {
    var rest := Split(s[1..], sep);
    var r := [[s[0]] + rest[0]] + rest[1..];
    assert Split(s, sep) == r;
    JoinAfterChar(s[0], rest, [sep]);
    assert s == [s[0]] + s[1..];
    forall k | 0 <= k < |r| ensures sep !in r[k] {
      if k > 0 { assert r[k] == rest[k]; }
      else { assert sep !in rest[0]; }
    }
  }

  /** Putting a character in front of the first piece puts it in front of the join. */
  lemma JoinAfterChar(c: char, rest: seq<string>, sep: string)
    requires |rest| >= 1
    ensures Join([[c] + rest[0]] + rest[1..], sep) == [c] + Join(rest, sep)
  {
    var r := [[c] + rest[0]] + rest[1..];
    if |rest| > 1 {
      var tail := Join(rest[1..], sep);
      assert r[1..] == rest[1..];
      assert Join(r, sep) == ([c] + rest[0]) + sep + tail;
      assert ([c] + rest[0]) + sep + tail == [c] + (rest[0] + sep + tail);
    }
  }

  /** Splitting a joined list gives the list back when no piece holds the separator. */
  lemma {:induction false} JoinSplit(parts: seq<string>, sep: char)
    requires |parts| >= 1
    requires forall k :: 0 <= k < |parts| ==> sep !in parts[k]
    ensures Split(Join(parts, [sep]), sep) == parts
    decreases |parts|
  {
    if |parts| == 1 {
      NoSepSplit(parts[0], sep);
    } else {
      JoinSplit(parts[1..], sep);
      SplitPrefix(parts[0], Join(parts[1..], [sep]), sep);
      assert Join(parts, [sep]) == parts[0] + ([sep] + Join(parts[1..], [sep]));
      assert [parts[0]] + parts[1..] == parts;
    }
  }

  lemma {:induction false} NoSepSplit(s: string, sep: char)
    requires sep !in s
    ensures Split(s, sep) == [s]
    decreases |s|
  {
    if |s| > 0 {
      NoSepSplit(s[1..], sep);
      assert [s[0]] + s[1..] == s;
    }
  }

  /** A separator-free prefix followed by a separator is the first piece. */
  lemma {:induction false} SplitPrefix(x: string, y: string, sep: char)
    requires sep !in x
    ensures Split(x + ([sep] + y), sep) == [x] + Split(y, sep)
    decreases |x|
  {
    if |x| == 0 {
      assert x + ([sep] + y) == [sep] + y;
      assert ([sep] + y)[1..] == y;
    } else {
      SplitPrefix(x[1..], y, sep);
      assert (x + ([sep] + y))[1..] == x[1..] + ([sep] + y);
      assert [x[0]] + x[1..] == x;
    }
  }

  /** `[t.strip() for t in pieces]`. */
  function StripAll(pieces: seq<string>): (r: seq<string>)
    ensures |r| == |pieces|
    ensures forall k :: 0 <= k < |r| ==> Stripped(r[k])
  {
    assert forall k :: 0 <= k < |pieces| ==> Stripped(Strip(pieces[k])) by {
      forall k | 0 <= k < |pieces| { StripShape(pieces[k]); }
    }
    seq(|pieces|, k requires 0 <= k < |pieces| => Strip(pieces[k]))
  }

  /** Joining stripped, comma-free items with ", " and splitting on ',' with
      stripping gives the items back. */
  lemma {:induction false} CommaListRoundTrip(items: seq<string>)
    requires |items| >= 1
    requires forall k :: 0 <= k < |items| ==> ',' !in items[k] && Stripped(items[k])
    ensures StripAll(Split(Join(items, ", "), ',')) == items
    decreases |items|
  {
    var padded := seq(|items|, k requires 0 <= k < |items| => if k == 0 then items[k] else " " + items[k]);
    JoinPadded(items, padded);
    forall k | 0 <= k < |padded| ensures ',' !in padded[k] {
      if k > 0 { assert padded[k] == [' '] + items[k]; }
    }
    JoinSplit(padded, ',');
    forall k | 0 <= k < |items| ensures Strip(padded[k]) == items[k] {
      if k == 0 {
        StrippedIsFixed(items[0]);
      } else {
        assert AllSpace(" ");
        StripPadded(" ", items[k], []);
        assert " " + items[k] + [] == padded[k];
      }
    }
  }

  lemma {:induction false} JoinPadded(items: seq<string>, padded: seq<string>)
    requires |items| >= 1 && |padded| == |items|
    requires padded[0] == items[0]
    requires forall k :: 1 <= k < |items| ==> padded[k] == " " + items[k]
    ensures Join(items, ", ") == Join(padded, ",")
    decreases |items|
  {
    if |items| > 1 {
      var tail := [items[1]] + items[2..];
      assert items[1..] == tail;
      JoinPadded(items[1..], [items[1]] + padded[2..]);
      JoinPaddedTail(items[1..], padded[1..]);
    }
  }

  lemma {:induction false} JoinPaddedTail(items: seq<string>, padded: seq<string>)
    requires |items| >= 1 && |padded| == |items|
    requires forall k :: 0 <= k < |items| ==> padded[k] == " " + items[k]
    ensures " " + Join(items, ", ") == Join(padded, ",")
    decreases |items|
  {
    if |items| > 1 {
      JoinPaddedTail(items[1..], padded[1..]);
      assert Join(items, ", ") == items[0] + ", " + Join(items[1..], ", ");
      assert Join(padded, ",") == padded[0] + "," + Join(padded[1..], ",");
      assert " " + Join(items[1..], ", ") == Join(padded[1..], ",");
    }
  }

  /** `needle` stands in `haystack` from position `i` on. */
  predicate OccursAt(needle: string, haystack: string, i: nat) {
    i + |needle| <= |haystack| && haystack[i..i + |needle|] == needle
  }

  /** Python's `needle in haystack` for strings. */
  ghost predicate Occurs(needle: string, haystack: string) {
    exists i: nat :: OccursAt(needle, haystack, i)
  }

  /** A substring stays a substring once both sides are lower-cased. */
  lemma OccursLower(needle: string, haystack: string)
    requires Occurs(needle, haystack)
    ensures Occurs(Lower(needle), Lower(haystack))
  {
    var i: nat :| OccursAt(needle, haystack, i);
    assert Lower(haystack)[i..i + |needle|] == Lower(needle);
    assert OccursAt(Lower(needle), Lower(haystack), i);
  }

  /** Every string contains the empty string. */
  lemma OccursEmpty(haystack: string)
    ensures Occurs([], haystack)
  {
    assert OccursAt([], haystack, 0);
  }

  /** Substring test, scanning start positions left to right. */
  function Contains(haystack: string, needle: string): (r: bool)
    ensures r <==> Occurs(needle, haystack)
    decreases |haystack|
  {
    if needle <= haystack then
      assert OccursAt(needle, haystack, 0);
      true
    else if |haystack| == 0 then false
    else
      var r := Contains(haystack[1..], needle);
      assert r ==> Occurs(needle, haystack) by {
        if r {
          var i: nat :| OccursAt(needle, haystack[1..], i);
          assert haystack[i + 1..i + 1 + |needle|] == needle;
          assert OccursAt(needle, haystack, i + 1);
        }
      }
      assert Occurs(needle, haystack) ==> r by {
        if Occurs(needle, haystack) {
          var i: nat :| OccursAt(needle, haystack, i);
          assert i != 0;
          assert haystack[1..][i - 1..i - 1 + |needle|] == needle;
          assert OccursAt(needle, haystack[1..], i - 1);
        }
      }
      r
  }

  /** `s.split(None, 1)`: drop leading white space, cut at the first run of white
      space, drop that run; no pieces for a blank string. */
  function SplitWhitespaceOnce(s: string): (r: seq<string>)
    ensures |r| <= 2
  {
    var t := LStrip(s);
    if t == [] then []
    else
      var i := FirstSpace(t);
      var rest := LStrip(t[i..]);
      if rest == [] then [t[..i]] else [t[..i], rest]
  }

  /** A word without white space, one space, and a stripped remainder split back
      into the word and the remainder. */
  lemma SplitWhitespaceOnceWord(w: string, rest: string)
    requires w != [] && forall k :: 0 <= k < |w| ==> !IsSpace(w[k])
    requires rest != [] && Stripped(rest)
    ensures SplitWhitespaceOnce(w + " " + rest) == [w, rest]
  {
    var tail := " " + rest;
    var t := w + tail;
    assert t == w + " " + rest;
    assert [] + t == t;
    LStripPadded([], t);
    FirstSpaceAfterWord(w, rest);
    assert t[|w|..] == tail && t[..|w|] == w;
    LStripPadded(" ", rest);
  }

  lemma FirstSpaceAfterWord(w: string, rest: string)
    requires forall k :: 0 <= k < |w| ==> !IsSpace(w[k])
    ensures FirstSpace(w + " " + rest) == |w|
  {
    var t := w + " " + rest;
    assert t[|w|] == ' ';
    assert forall k :: 0 <= k < |w| ==> t[k] == w[k];
  }

  /** Index of the first white-space character, or `|s|` when there is none. */
  function FirstSpace(s: string): (i: nat)
    ensures i <= |s|
    ensures forall k :: 0 <= k < i ==> !IsSpace(s[k])
    ensures i < |s| ==> IsSpace(s[i])
    decreases |s|
  {
    if |s| == 0 || IsSpace(s[0]) then 0 else 1 + FirstSpace(s[1..])
  }

  predicate IsDigit(c: char) {
    '0' <= c <= '9'
  }

  /** `str.isdigit()` for ASCII digits: non-empty and digits only. */
  predicate IsDigits(s: string) {
    |s| > 0 && forall i :: 0 <= i < |s| ==> IsDigit(s[i])
  }

  /** `int(s)` for a string of decimal digits. */
  function DigitsValue(s: string): nat
    requires forall i :: 0 <= i < |s| ==> IsDigit(s[i])
    decreases |s|
  {
    if |s| == 0 then 0
    else
      assert IsDigit(s[|s| - 1]);
      10 * DigitsValue(s[..|s| - 1]) + ((s[|s| - 1] as int) - ('0' as int))
  }

  /** `str(n)` for a natural number. */
  function NatToString(n: nat): (s: string)
    decreases n
  {
    if n < 10 then [(('0' as int) + n) as char]
    else NatToString(n / 10) + [(('0' as int) + n % 10) as char]
  }

  /** `int(str(n)) == n`, and `str(n)` passes `isdigit()`. */
  lemma {:induction false} NatToStringRoundTrip(n: nat)
    ensures IsDigits(NatToString(n))
    ensures DigitsValue(NatToString(n)) == n
    decreases n
  {
    var s := NatToString(n);
    if n >= 10 {
      NatToStringRoundTrip(n / 10);
      assert s[..|s| - 1] == NatToString(n / 10);
    }
  }
}
